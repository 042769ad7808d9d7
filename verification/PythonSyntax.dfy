/**
 The Python statements and expressions the timeout rule looks at. Expressions keep what the rule
 and name binding can see; a compound statement is a head and its blocks, in the order
 if/for/while: body, else; with: body; try: body, handlers, else, finally; match: the cases.
 */
module PythonSyntax {
  import opened Options

  datatype CallKind = ClockReading | ReportingWait | OtherCall

  datatype Expr =
    | Name(id: string)
    | Literal(isFalse: bool)
    | Call(kind: CallKind, args: seq<Expr>, keywords: seq<Expr>)
    | Not(operand: Expr)
    | Compare(line: int, operands: seq<Expr>)
    | Walrus(target: string, value: Expr)
    | Conditional(test: Expr, body: Expr, orElse: Expr)
    | Lambda(defaults: seq<Expr>, body: Expr)
    | Generator(element: Expr, clauses: seq<Expr>)
    | Comprehension(targets: set<string>, element: Expr, clauses: seq<Expr>)
    | Operation(parts: seq<Expr>)

  datatype Target =
    | NameTarget(id: string)
    | OtherTarget(stores: set<string>, parts: seq<Expr>)

  datatype JumpKind = Return | Raise | Break | Continue

  datatype Item = Item(context: Expr, vars: Option<Target>)

  datatype HandlerHead = HandlerHead(types: seq<Expr>, name: Option<string>)

  datatype CaseHead = CaseHead(captures: set<string>, parts: seq<Expr>)

  datatype Head =
    | If(line: int, test: Expr)
    | While(line: int, test: Expr)
    | For(target: Target, iter: Expr)
    | With(items: seq<Item>)
    | Try(handlers: seq<HandlerHead>)
    | Match(subject: Expr, cases: seq<CaseHead>)

  type Block = seq<Stmt>

  datatype Suite = Suite(stmts: seq<Stmt>)

  /**
   `Plain` is any simple statement that binds the given names: augmented assignment, import, del,
   expression. `Scope` is a nested function or class, with what its definition evaluates (decorators,
   defaults, bases, and what a class body binds in this function) and the names of this function that
   code inside may rebind later. `Declare` makes names global or nonlocal.
   */
  datatype Stmt =
    | Assign(site: nat, targets: seq<Target>, value: Expr)
    | AnnAssign(site: nat, target: Target, annotated: Option<Expr>)
    | Plain(stores: set<string>, parts: seq<Expr>)
    | Jump(kind: JumpKind, parts: seq<Expr>)
    | Scope(name: string, evaluated: seq<Expr>, nonlocals: set<string>)
    | Declare(names: set<string>)
    | Assert(line: int, test: Expr)
    | Compound(head: Head, blocks: seq<Suite>)

  function BlockAt(s: Stmt, b: nat): Block {
    if s.Compound? && b < |s.blocks| then s.blocks[b].stmts else []
  }

  predicate IsCondition(s: Stmt) {
    s.Assert? || (s.Compound? && (s.head.If? || s.head.While?))
  }

  // ----- names stored, as the analysis collects them -----

  /** `_stored_local_names` of an expression: lambdas and generator expressions are not entered. */
  function StoredInExpr(e: Expr): set<string> {
    match e
    case Name(_) => {}
    case Literal(_) => {}
    case Call(_, args, keywords) => StoredInExprs(args) + StoredInExprs(keywords)
    case Not(operand) => StoredInExpr(operand)
    case Compare(_, operands) => StoredInExprs(operands)
    case Walrus(target, value) => {target} + StoredInExpr(value)
    case Conditional(test, body, orElse) => StoredInExpr(test) + StoredInExpr(body) + StoredInExpr(orElse)
    case Lambda(_, _) => {}
    case Generator(_, _) => {}
    case Comprehension(targets, element, clauses) => targets + StoredInExpr(element) + StoredInExprs(clauses)
    case Operation(parts) => StoredInExprs(parts)
  }

  function StoredInExprs(es: seq<Expr>): set<string> {
    if es == [] then {} else StoredInExpr(es[0]) + StoredInExprs(es[1..])
  }

  function StoredInTarget(t: Target): set<string> {
    match t
    case NameTarget(id) => {id}
    case OtherTarget(stores, parts) => stores + StoredInExprs(parts)
  }

  function StoredInTargets(ts: seq<Target>): set<string> {
    if ts == [] then {} else StoredInTarget(ts[0]) + StoredInTargets(ts[1..])
  }

  function StoredInItems(items: seq<Item>): set<string> {
    if items == [] then {}
    else StoredInExpr(items[0].context)
         + (if items[0].vars.None? then {} else StoredInTarget(items[0].vars.value))
         + StoredInItems(items[1..])
  }

  function StoredInHandlers(handlers: seq<HandlerHead>): set<string> {
    if handlers == [] then {}
    else StoredInExprs(handlers[0].types)
         + (if handlers[0].name.None? then {} else {handlers[0].name.value})
         + StoredInHandlers(handlers[1..])
  }

  /** Captured names are not name nodes, so only the expressions of a case are collected. */
  function StoredInCases(cases: seq<CaseHead>): set<string> {
    if cases == [] then {} else StoredInExprs(cases[0].parts) + StoredInCases(cases[1..])
  }

  function StoredInHead(h: Head): set<string> {
    match h
    case If(_, test) => StoredInExpr(test)
    case While(_, test) => StoredInExpr(test)
    case For(target, iter) => StoredInTarget(target) + StoredInExpr(iter)
    case With(items) => StoredInItems(items)
    case Try(handlers) => StoredInHandlers(handlers)
    case Match(subject, cases) => StoredInExpr(subject) + StoredInCases(cases)
  }

  /** `_stored_local_names` of a statement, its blocks included; a nested scope gives only its name. */
  function Stored(s: Stmt): set<string> {
    match s
    case Assign(_, targets, value) => StoredInTargets(targets) + StoredInExpr(value)
    case AnnAssign(_, target, annotated) =>
      StoredInTarget(target) + (if annotated.None? then {} else StoredInExpr(annotated.value))
    case Plain(stores, parts) => stores + StoredInExprs(parts)
    case Jump(_, parts) => StoredInExprs(parts)
    case Scope(name, _, _) => {name}
    case Declare(_) => {}
    case Assert(_, test) => StoredInExpr(test)
    case Compound(head, blocks) => StoredInHead(head) + StoredInBlocks(blocks)
  }

  function StoredInBlock(ss: Block): set<string> {
    if ss == [] then {} else Stored(ss[0]) + StoredInBlock(ss[1..])
  }

  function StoredInBlocks(blocks: seq<Suite>): set<string> {
    if blocks == [] then {} else StoredInBlock(blocks[0].stmts) + StoredInBlocks(blocks[1..])
  }

  lemma {:induction false} StoredInBlockAt(ss: Block, i: nat)
    requires i < |ss|
    ensures Stored(ss[i]) <= StoredInBlock(ss)
  {
    if i > 0 {
      StoredInBlockAt(ss[1..], i - 1);
    }
  }

  lemma {:induction false} StoredInBlocksAt(blocks: seq<Suite>, b: nat)
    requires b < |blocks|
    ensures StoredInBlock(blocks[b].stmts) <= StoredInBlocks(blocks)
  {
    if b > 0 {
      StoredInBlocksAt(blocks[1..], b - 1);
    }
  }

  // ----- names bound when code runs -----

  /** Names evaluating the expression may bind in the function's own scope. */
  function BoundByExpr(e: Expr): (names: set<string>)
    ensures Missed(e) <= names <= StoredInExpr(e) + Missed(e)
    decreases e, 1
  {
    match e
    case Name(_) => {}
    case Literal(_) => {}
    case Call(_, args, keywords) => BoundByExprs(args) + BoundByExprs(keywords)
    case Not(operand) => BoundByExpr(operand)
    case Compare(_, operands) => BoundByExprs(operands)
    case Walrus(target, value) => {target} + BoundByExpr(value)
    case Conditional(test, body, orElse) => BoundByExpr(test) + BoundByExpr(body) + BoundByExpr(orElse)
    case Lambda(defaults, _) => BoundByExprs(defaults)
    case Generator(_, _) => {}
    case Comprehension(_, element, clauses) => BoundByExpr(element) + BoundByExprs(clauses)
    case Operation(parts) => BoundByExprs(parts)
  }

  function BoundByExprs(es: seq<Expr>): (names: set<string>)
    ensures MissedAll(es) <= names <= StoredInExprs(es) + MissedAll(es)
    decreases es, 1
  {
    if es == [] then {} else BoundByExpr(es[0]) + BoundByExprs(es[1..])
  }

  /** Every assignment expression of this scope inside, generator expressions included, bodies of lambdas not. */
  function WalrusTargets(e: Expr): set<string> {
    match e
    case Name(_) => {}
    case Literal(_) => {}
    case Call(_, args, keywords) => WalrusTargetsAll(args) + WalrusTargetsAll(keywords)
    case Not(operand) => WalrusTargets(operand)
    case Compare(_, operands) => WalrusTargetsAll(operands)
    case Walrus(target, value) => {target} + WalrusTargets(value)
    case Conditional(test, body, orElse) => WalrusTargets(test) + WalrusTargets(body) + WalrusTargets(orElse)
    case Lambda(defaults, _) => WalrusTargetsAll(defaults)
    case Generator(element, clauses) => WalrusTargets(element) + WalrusTargetsAll(clauses)
    case Comprehension(_, element, clauses) => WalrusTargets(element) + WalrusTargetsAll(clauses)
    case Operation(parts) => WalrusTargetsAll(parts)
  }

  function WalrusTargetsAll(es: seq<Expr>): set<string> {
    if es == [] then {} else WalrusTargets(es[0]) + WalrusTargetsAll(es[1..])
  }

  /** Names a generator expression inside binds in this scope, whenever it is consumed. */
  function Deferred(e: Expr): set<string> {
    match e
    case Name(_) => {}
    case Literal(_) => {}
    case Call(_, args, keywords) => DeferredAll(args) + DeferredAll(keywords)
    case Not(operand) => Deferred(operand)
    case Compare(_, operands) => DeferredAll(operands)
    case Walrus(_, value) => Deferred(value)
    case Conditional(test, body, orElse) => Deferred(test) + Deferred(body) + Deferred(orElse)
    case Lambda(defaults, _) => DeferredAll(defaults)
    case Generator(element, clauses) => WalrusTargets(element) + WalrusTargetsAll(clauses)
    case Comprehension(_, element, clauses) => Deferred(element) + DeferredAll(clauses)
    case Operation(parts) => DeferredAll(parts)
  }

  function DeferredAll(es: seq<Expr>): set<string> {
    if es == [] then {} else Deferred(es[0]) + DeferredAll(es[1..])
  }

  function BoundByTarget(t: Target): (names: set<string>)
    ensures MissedInTarget(t) <= names <= StoredInTarget(t) + MissedInTarget(t)
  {
    match t
    case NameTarget(id) => {id}
    case OtherTarget(stores, parts) => stores + BoundByExprs(parts)
  }

  function BoundByItems(items: seq<Item>): (names: set<string>)
    ensures MissedInItems(items) <= names <= StoredInItems(items) + MissedInItems(items)
  {
    if items == [] then {}
    else BoundByExpr(items[0].context)
         + (if items[0].vars.None? then {} else BoundByTarget(items[0].vars.value))
         + BoundByItems(items[1..])
  }

  function BoundByHandlers(handlers: seq<HandlerHead>): (names: set<string>)
    ensures MissedInHandlers(handlers) <= names <= StoredInHandlers(handlers) + MissedInHandlers(handlers)
  {
    if handlers == [] then {}
    else BoundByExprs(handlers[0].types)
         + (if handlers[0].name.None? then {} else {handlers[0].name.value})
         + BoundByHandlers(handlers[1..])
  }

  function BoundByCases(cases: seq<CaseHead>): (names: set<string>)
    ensures MissedInCases(cases) <= names <= StoredInCases(cases) + MissedInCases(cases)
  {
    if cases == [] then {} else cases[0].captures + BoundByExprs(cases[0].parts) + BoundByCases(cases[1..])
  }

  // ----- names bound and not collected -----

  /**
   Names that evaluating the expression may bind although the collector does not list them: the
   defaults of lambdas.
   */
  function Missed(e: Expr): set<string>
    decreases e, 0
  {
    match e
    case Name(_) => {}
    case Literal(_) => {}
    case Call(_, args, keywords) => MissedAll(args) + MissedAll(keywords)
    case Not(operand) => Missed(operand)
    case Compare(_, operands) => MissedAll(operands)
    case Walrus(_, value) => Missed(value)
    case Conditional(test, body, orElse) => Missed(test) + Missed(body) + Missed(orElse)
    case Lambda(defaults, _) => BoundByExprs(defaults)
    case Generator(_, _) => {}
    case Comprehension(_, element, clauses) => Missed(element) + MissedAll(clauses)
    case Operation(parts) => MissedAll(parts)
  }

  function MissedAll(es: seq<Expr>): set<string>
    decreases es, 0
  {
    if es == [] then {} else Missed(es[0]) + MissedAll(es[1..])
  }

  function MissedInTarget(t: Target): set<string> {
    if t.NameTarget? then {} else MissedAll(t.parts)
  }

  function MissedInTargets(ts: seq<Target>): set<string> {
    if ts == [] then {} else MissedInTarget(ts[0]) + MissedInTargets(ts[1..])
  }

  function MissedInItems(items: seq<Item>): set<string> {
    if items == [] then {}
    else Missed(items[0].context)
         + (if items[0].vars.None? then {} else MissedInTarget(items[0].vars.value))
         + MissedInItems(items[1..])
  }

  function MissedInHandlers(handlers: seq<HandlerHead>): set<string> {
    if handlers == [] then {} else MissedAll(handlers[0].types) + MissedInHandlers(handlers[1..])
  }

  /** Captured names are not collected either. */
  function MissedInCases(cases: seq<CaseHead>): set<string> {
    if cases == [] then {} else cases[0].captures + MissedAll(cases[0].parts) + MissedInCases(cases[1..])
  }

  // ----- names that deferred code may rebind -----

  function DeferredInTarget(t: Target): set<string> {
    if t.NameTarget? then {} else DeferredAll(t.parts)
  }

  function DeferredInTargets(ts: seq<Target>): set<string> {
    if ts == [] then {} else DeferredInTarget(ts[0]) + DeferredInTargets(ts[1..])
  }

  function DeferredInItems(items: seq<Item>): set<string> {
    if items == [] then {}
    else Deferred(items[0].context)
         + (if items[0].vars.None? then {} else DeferredInTarget(items[0].vars.value))
         + DeferredInItems(items[1..])
  }

  function DeferredInHandlers(handlers: seq<HandlerHead>): set<string> {
    if handlers == [] then {} else DeferredAll(handlers[0].types) + DeferredInHandlers(handlers[1..])
  }

  function DeferredInCases(cases: seq<CaseHead>): set<string> {
    if cases == [] then {} else DeferredAll(cases[0].parts) + DeferredInCases(cases[1..])
  }

  // ----- names other code shares -----

  /** Names the function declares global or nonlocal, anywhere: other code may rebind them at any time. */
  function Declared(s: Stmt): set<string> {
    match s
    case Declare(names) => names
    case Compound(_, blocks) => DeclaredInBlocks(blocks)
    case _ => {}
  }

  function DeclaredInBlock(ss: Block): set<string> {
    if ss == [] then {} else Declared(ss[0]) + DeclaredInBlock(ss[1..])
  }

  function DeclaredInBlocks(blocks: seq<Suite>): set<string> {
    if blocks == [] then {} else DeclaredInBlock(blocks[0].stmts) + DeclaredInBlocks(blocks[1..])
  }
}
