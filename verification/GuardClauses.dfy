/**
 The compiler that turns a job condition into a bounded disjunction of clauses, and the check
 that a self-hosted job runs only under the clauses the policy requires.
 Mirrors _guard_clauses and its callers in tools/workflow_policy.py.
 */
module GuardClauses {
  import opened Basics
  import opened Order

  datatype Literal = Text(text: string) | Flag(flag: bool)

  datatype Comparison = Eq | OtherComparison

  /** The parts of a parsed Python expression the compiler distinguishes. */
  datatype Expr =
    | Or(values: seq<Expr>)
    | And(values: seq<Expr>)
    | Compare(left: Expr, ops: seq<Comparison>, comparators: seq<Expr>)
    | Not(operand: Expr)
    | Name(id: string)
    | Attribute(value: Expr, attr: string)
    | Constant(literal: Literal)
    | Unsupported

  datatype Atom = ValueAtom(field: string, literal: Literal) | FieldAtom(first: string, second: string)

  type Clause = set<Atom>

  const MAX_CLAUSES := 16

  /* ---------- leaves ---------- */

  function AttributeName(node: Expr): Option<string> {
    match node
    case Name(id) => Some(id)
    case Attribute(value, attr) =>
      var prefix := AttributeName(value);
      if prefix.None? then None else Some(prefix.value + "." + attr)
    case _ => None
  }

  function LiteralValue(node: Expr): Option<Literal> {
    match node
    case Constant(literal) => Some(literal)
    case Name(id) => if id == "true" || id == "false" then Some(Flag(id == "true")) else None
    case _ => None
  }

  function FieldOf(node: Expr): Option<string> { if LiteralValue(node).Some? then None else AttributeName(node) }

  function FieldEquality(left: string, right: string): Atom {
    if StringLe(left, right) then FieldAtom(left, right) else FieldAtom(right, left)
  }

  function ComparisonAtom(node: Expr): Option<Atom> {
    if !node.Compare? || |node.ops| != 1 || |node.comparators| != 1 || node.ops[0] != Eq then None
    else
      var right := node.comparators[0];
      if FieldOf(node.left).Some? && FieldOf(right).Some? then Some(FieldEquality(FieldOf(node.left).value, FieldOf(right).value))
      else if FieldOf(node.left).Some? && LiteralValue(right).Some? then Some(ValueAtom(FieldOf(node.left).value, LiteralValue(right).value))
      else if FieldOf(right).Some? && LiteralValue(node.left).Some? then Some(ValueAtom(FieldOf(right).value, LiteralValue(node.left).value))
      else None
  }

  function LeafAtom(node: Expr): Option<Atom> {
    if ComparisonAtom(node).Some? then ComparisonAtom(node)
    else if node.Not? && AttributeName(node.operand).Some? then Some(ValueAtom(AttributeName(node.operand).value, Flag(false)))
    else None
  }

  /** The side a field comparison is written on does not matter. */
  lemma SidesDoNotMatter(left: string, right: string)
    ensures FieldEquality(left, right) == FieldEquality(right, left)
  {
    StringLeTotal(left, right);
    if StringLe(left, right) && StringLe(right, left) {
      StringLeAntisymmetric(left, right);
    }
  }

  /* ---------- what an expression means ---------- */

  /** The run the condition is evaluated in, and the equality it is evaluated with. */
  datatype World = World(field: string -> Literal, same: (Literal, Literal) -> bool)

  ghost predicate Symmetric(w: World) { forall x, y :: w.same(x, y) ==> w.same(y, x) }

  ghost function Operand(node: Expr, w: World): Option<Literal> {
    if LiteralValue(node).Some? then LiteralValue(node)
    else if AttributeName(node).Some? then Some(w.field(AttributeName(node).value))
    else None
  }

  /**
   `==` compares operands, `!` asks for equality with false; other leaves are not given a meaning. A
   negated name is read as the compiler reads it, as a field: `!true` is about a field named true.
   */
  ghost predicate Holds(e: Expr, w: World)
    decreases e
  {
    match e
    case Or(values) => exists i :: 0 <= i < |values| && Holds(values[i], w)
    case And(values) => forall i :: 0 <= i < |values| ==> Holds(values[i], w)
    case Compare(left, ops, comparators) =>
      && |ops| == 1 && |comparators| == 1 && ops[0] == Eq
      && Operand(left, w).Some? && Operand(comparators[0], w).Some?
      && w.same(Operand(left, w).value, Operand(comparators[0], w).value)
    case Not(operand) => AttributeName(operand).Some? && w.same(w.field(AttributeName(operand).value), Flag(false))
    case _ => false
  }

  ghost predicate AtomHolds(a: Atom, w: World) {
    match a
    case ValueAtom(field, literal) => w.same(w.field(field), literal)
    case FieldAtom(first, second) => w.same(w.field(first), w.field(second))
  }

  ghost predicate ClauseHolds(c: Clause, w: World) { forall a :: a in c ==> AtomHolds(a, w) }

  ghost predicate AnyClauseHolds(clauses: set<Clause>, w: World) { exists c :: c in clauses && ClauseHolds(c, w) }

  /* ---------- what the compiler returns ---------- */

  type Pairing = (Clause, Clause)

  function Pairs(left: set<Clause>, right: set<Clause>): set<Pairing> { set l, r | l in left && r in right :: (l, r) }

  function Merged(pairs: set<Pairing>): set<Clause> { set p | p in pairs :: p.0 + p.1 }

  function Product(left: set<Clause>, right: set<Clause>): set<Clause> { Merged(Pairs(left, right)) }

  /** No pair shares an atom, and no two pairs merge into the same clause. */
  ghost predicate Separable(pairs: set<Pairing>) {
    && (forall p :: p in pairs ==> p.0 * p.1 == {})
    && forall p, q :: p in pairs && q in pairs && p.0 + p.1 == q.0 + q.1 ==> p == q
  }

  ghost function Join(left: Option<set<Clause>>, right: Option<set<Clause>>, isOr: bool): Option<set<Clause>> {
    if left.None? || right.None? then None
    else if isOr then
      if left.value !! right.value && |left.value + right.value| <= MAX_CLAUSES then Some(left.value + right.value) else None
    else
      if Separable(Pairs(left.value, right.value)) && |Product(left.value, right.value)| <= MAX_CLAUSES then Some(Product(left.value, right.value)) else None
  }

  function Unit(isOr: bool): set<Clause> { if isOr then {} else {{}} }

  /** The clause sets of the children, joined from the left. */
  ghost function JoinAll(values: seq<Expr>, isOr: bool): Option<set<Clause>>
    decreases values, 0
  {
    if values == [] then Some(Unit(isOr))
    else
      assert values[|values| - 1] in values;
      Join(JoinAll(values[..|values| - 1], isOr), Compiled(values[|values| - 1]), isOr)
  }

  ghost function Compiled(node: Expr): Option<set<Clause>>
    decreases node, 1
  {
    match node
    case Or(values) => JoinAll(values, true)
    case And(values) => JoinAll(values, false)
    case _ => if LeafAtom(node).Some? then Some({{LeafAtom(node).value}}) else None
  }

  /* ---------- the compiler itself ---------- */

  lemma MergeStep(done: set<Pairing>, pair: Pairing)
    requires Separable(done) && pair !in done
    ensures Merged(done + {pair}) == Merged(done) + {pair.0 + pair.1}
    ensures Separable(done + {pair}) <==> pair.0 * pair.1 == {} && pair.0 + pair.1 !in Merged(done)
  {
  }

  lemma MergeGrows(some: set<Pairing>, all: set<Pairing>)
    requires some <= all
    ensures |Merged(some)| <= |Merged(all)|
    ensures Separable(all) ==> Separable(some)
  {
    SubsetSize(Merged(some), Merged(all));
  }

  /** The product loop: merge the pairs one by one, giving up at the first clash. */
  method MergePairs(pairs: set<Pairing>) returns (r: Option<set<Clause>>)
    ensures r == if Separable(pairs) && |Merged(pairs)| <= MAX_CLAUSES then Some(Merged(pairs)) else None
  {
    hide Separable, Merged;
    var combined: set<Clause> := {};
    var todo := pairs;
    ghost var done: set<Pairing> := {};
    NothingMerged();
    while todo != {}
      invariant done + todo == pairs && done !! todo
      invariant Separable(done) && combined == Merged(done) && |combined| <= MAX_CLAUSES
      decreases |todo|
    {
      var pair :| pair in todo;
      MergeStep(done, pair);
      MergeGrows(done + {pair}, pairs);
      var clause := pair.0 + pair.1;
      if pair.0 * pair.1 != {} || clause in combined { return None; }
      combined := combined + {clause};
      if |combined| > MAX_CLAUSES { return None; }
      todo, done := todo - {pair}, done + {pair};
    }
    assert done == pairs;
    r := Some(combined);
  }

  lemma NothingMerged()
    ensures Merged({}) == {} && Separable({})
  {
  }

  /** Every left clause with every right clause. */
  method Multiply(left: set<Clause>, right: set<Clause>) returns (r: Option<set<Clause>>)
    ensures r == Join(Some(left), Some(right), false)
  {
    r := MergePairs(Pairs(left, right));
  }

  /** Once a prefix of the children cannot be joined, neither can the whole. */
  lemma {:induction false} PrefixFails(values: seq<Expr>, i: nat, isOr: bool)
    requires i <= |values| && JoinAll(values[..i], isOr).None?
    ensures JoinAll(values, isOr).None?
    decreases |values|
  {
    if i < |values| {
      assert values[..|values| - 1][..i] == values[..i];
      PrefixFails(values[..|values| - 1], i, isOr);
    } else {
      assert values[..i] == values;
    }
  }

  lemma JoinAllStep(values: seq<Expr>, i: nat, isOr: bool)
    requires i < |values|
    ensures JoinAll(values[..i + 1], isOr) == Join(JoinAll(values[..i], isOr), Compiled(values[i]), isOr)
  {
    assert values[..i + 1][..i] == values[..i];
  }

  /** The bounded compiler: loops over the children, running result, early refusal. */
  method Compile(node: Expr) returns (r: Option<set<Clause>>)
    ensures r == Compiled(node)
    decreases node, 1
  {
    match node {
      case Or(values) => r := CompileAll(values, true);
      case And(values) => r := CompileAll(values, false);
      case _ => r := if LeafAtom(node).Some? then Some({{LeafAtom(node).value}}) else None;
    }
  }

  method CompileAll(values: seq<Expr>, isOr: bool) returns (r: Option<set<Clause>>)
    ensures r == JoinAll(values, isOr)
    decreases values, 0
  {
    var result := Unit(isOr);
    var i := 0;
    while i < |values|
      invariant i <= |values| && JoinAll(values[..i], isOr) == Some(result)
    {
      assert values[i] in values;
      var child := Compile(values[i]);
      JoinAllStep(values, i, isOr);
      var joined: Option<set<Clause>>;
      if child.None? {
        joined := None;
      } else if isOr {
        joined := if result * child.value != {} || |result + child.value| > MAX_CLAUSES then None else Some(result + child.value);
      } else {
        joined := Multiply(result, child.value);
      }
      if joined.None? {
        PrefixFails(values, i + 1, isOr);
        return None;
      }
      result := joined.value;
      i := i + 1;
    }
    assert values[..i] == values;
    r := Some(result);
  }

  /* ---------- the compiled clauses mean the expression ---------- */

  lemma ProductHolds(left: set<Clause>, right: set<Clause>, w: World)
    ensures AnyClauseHolds(Product(left, right), w) <==> AnyClauseHolds(left, w) && AnyClauseHolds(right, w)
  {
    if AnyClauseHolds(left, w) && AnyClauseHolds(right, w) {
      var l :| l in left && ClauseHolds(l, w);
      var r :| r in right && ClauseHolds(r, w);
      assert (l, r) in Pairs(left, right);
      assert l + r in Product(left, right) && ClauseHolds(l + r, w);
    }
    if AnyClauseHolds(Product(left, right), w) {
      var c :| c in Product(left, right) && ClauseHolds(c, w);
      var p :| p in Pairs(left, right) && p.0 + p.1 == c;
      assert ClauseHolds(p.0, w) && ClauseHolds(p.1, w);
    }
  }

  lemma JoinHolds(left: set<Clause>, right: set<Clause>, isOr: bool, w: World)
    requires Join(Some(left), Some(right), isOr).Some?
    ensures AnyClauseHolds(Join(Some(left), Some(right), isOr).value, w) <==>
      if isOr then AnyClauseHolds(left, w) || AnyClauseHolds(right, w) else AnyClauseHolds(left, w) && AnyClauseHolds(right, w)
  {
    if isOr {
      assert forall c :: c in left + right <==> c in left || c in right;
    } else {
      ProductHolds(left, right, w);
    }
  }

  ghost predicate Combined(values: seq<Expr>, isOr: bool, w: World) {
    if isOr then exists i :: 0 <= i < |values| && Holds(values[i], w) else forall i :: 0 <= i < |values| ==> Holds(values[i], w)
  }

  lemma {:induction false} JoinAllHolds(values: seq<Expr>, isOr: bool, w: World)
    requires JoinAll(values, isOr).Some? && Symmetric(w)
    ensures AnyClauseHolds(JoinAll(values, isOr).value, w) <==> Combined(values, isOr, w)
    decreases values, 0
  {
    if values == [] {
      if !isOr { assert ClauseHolds({}, w) && {} in Unit(false); }
    } else {
      var init, last := values[..|values| - 1], values[|values| - 1];
      assert last in values;
      JoinAllHolds(init, isOr, w);
      CompiledHolds(last, w);
      JoinHolds(JoinAll(init, isOr).value, Compiled(last).value, isOr, w);
      CombinedStep(values, isOr, w);
    }
  }

  lemma CombinedStep(values: seq<Expr>, isOr: bool, w: World)
    requires values != []
    ensures var init, last := values[..|values| - 1], values[|values| - 1];
      Combined(values, isOr, w) <==> if isOr then Combined(init, isOr, w) || Holds(last, w) else Combined(init, isOr, w) && Holds(last, w)
  {
  }

  /** Whenever the compiler answers, the expression is true exactly when some clause is wholly true. */
  lemma {:induction false} CompiledHolds(node: Expr, w: World)
    requires Compiled(node).Some? && Symmetric(w)
    ensures AnyClauseHolds(Compiled(node).value, w) <==> Holds(node, w)
    decreases node, 1
  {
    match node {
      case Or(values) => JoinAllHolds(values, true, w);
      case And(values) => JoinAllHolds(values, false, w);
      case _ => 
    }
  }

  /** A boolean operator always has operands when it comes out of the parser. */
  predicate Parsed(node: Expr)
    decreases node
  {
    match node
    case Or(values) => values != [] && forall i :: 0 <= i < |values| ==> Parsed(values[i])
    case And(values) => values != [] && forall i :: 0 <= i < |values| ==> Parsed(values[i])
    case _ => true
  }

  lemma {:induction false} JoinAllBounds(values: seq<Expr>, isOr: bool)
    requires JoinAll(values, isOr).Some? && forall i :: 0 <= i < |values| ==> Parsed(values[i])
    ensures |JoinAll(values, isOr).value| <= MAX_CLAUSES
    ensures values != [] || !isOr ==> JoinAll(values, isOr).value != {}
    decreases values, 0
  {
    if values != [] {
      var init, last := values[..|values| - 1], values[|values| - 1];
      assert last in values;
      JoinAllBounds(init, isOr);
      CompiledBounds(last);
      if !isOr {
        var l :| l in JoinAll(init, isOr).value;
        var r :| r in Compiled(last).value;
        assert (l, r) in Pairs(JoinAll(init, isOr).value, Compiled(last).value);
        assert l + r in Product(JoinAll(init, isOr).value, Compiled(last).value);
      }
    }
  }

  /** Between one and sixteen clauses. */
  lemma {:induction false} CompiledBounds(node: Expr)
    requires Compiled(node).Some? && Parsed(node)
    ensures 1 <= |Compiled(node).value| <= MAX_CLAUSES
    decreases node, 1
  {
    match node {
      case Or(values) => JoinAllBounds(values, true);
      case And(values) => JoinAllBounds(values, false);
      case _ =>
    }
  }

  /* ---------- the policy the clauses are held against ---------- */

  const DEPLOY_MAIN := "Deploy Main"
  const MODE := "vars.WEATHER_GOVERNANCE_MODE"
  const DEPLOYMENT_ENABLED := "vars.WEATHER_DEPLOYMENT_ENABLED"
  const EVENT := "github.event_name"
  const REF := "github.ref"
  const ACTION := "github.event.action"
  const WORKFLOW_SHA := "github.workflow_sha"
  const RUN := "github.event.workflow_run."

  /** The trigger section: event names, and whether the workflow_run entry has the trusted shape. */
  datatype Events = Events(names: set<string>, workflowRunTrusted: bool)

  function IsText(field: string, text: string): Atom { ValueAtom(field, Text(text)) }

  function PushClause(branch: string): Clause {
    {IsText(MODE, "protected"), IsText(EVENT, "push"), IsText(REF, "refs/heads/" + branch)}
  }

  function DeployCommon(): Clause {
    {
      IsText(DEPLOYMENT_ENABLED, "enabled"), IsText(EVENT, "workflow_run"), IsText(ACTION, "completed"),
      IsText(RUN + "name", "CI"), IsText(RUN + "path", ".github/workflows/ci.yml"), IsText(RUN + "status", "completed"),
      IsText(RUN + "conclusion", "success"), IsText(RUN + "event", "push"), IsText(RUN + "head_branch", "main"),
      FieldEquality(WORKFLOW_SHA, RUN + "head_sha")
    }
  }

  function DeployClause(mode: string): Clause { {IsText(MODE, mode)} + DeployCommon() }

  function RequiredClauses(workflow: string, events: Events): set<Clause> {
    (if "push" in events.names && workflow == "CI" then {PushClause("dev"), PushClause("main")} else {})
    + (if workflow == DEPLOY_MAIN && events.names == {"workflow_run"} && events.workflowRunTrusted
       then {DeployClause("protected"), DeployClause("guarded_private")} else {})
  }

  /**
   Trusted clauses of a self-hosted job. When they are given, the condition can only be true in a
   run that satisfies a required clause; for the deploy workflow it is true exactly then.
   */
  method TrustedGuard(workflow: string, events: Events, tree: Option<Expr>) returns (r: Option<set<Clause>>)
    ensures r.Some? <==>
      && tree.Some? && RequiredClauses(workflow, events) != {}
      && Compiled(tree.value).Some? && Compiled(tree.value).value != {}
      && (if workflow == DEPLOY_MAIN then Compiled(tree.value).value == RequiredClauses(workflow, events)
          else Compiled(tree.value).value <= RequiredClauses(workflow, events))
    ensures r.Some? ==> r == Compiled(tree.value)
    ensures r.Some? ==> forall w :: Symmetric(w) && Holds(tree.value, w) ==> AnyClauseHolds(RequiredClauses(workflow, events), w)
    ensures r.Some? && workflow == DEPLOY_MAIN ==> forall w :: Symmetric(w) ==>
      (Holds(tree.value, w) <==> AnyClauseHolds(RequiredClauses(workflow, events), w))
  {
    hide RequiredClauses, Compiled;
    var required := RequiredClauses(workflow, events);
    if tree.None? || required == {} { return None; }
    var clauses := Compile(tree.value);
    if clauses.None? || clauses.value == {} { return None; }
    if workflow == DEPLOY_MAIN && clauses.value != required { return None; }
    if workflow != DEPLOY_MAIN && !(clauses.value <= required) { return None; }
    forall w | Symmetric(w) { CompiledHolds(tree.value, w); }
    r := clauses;
  }

  /** The exact-match form of the deploy workflow: accepted means equivalent to its two clauses. */
  method DeployMainGuardIsExact(workflow: string, events: Events, tree: Option<Expr>) returns (exact: bool)
    ensures exact <==> tree.Some? && |RequiredClauses(workflow, events)| == 2 && Compiled(tree.value) == Some(RequiredClauses(workflow, events))
    ensures exact ==> forall w :: Symmetric(w) ==>
      (Holds(tree.value, w) <==> AnyClauseHolds(RequiredClauses(workflow, events), w))
  {
    hide RequiredClauses, Compiled;
    var required := RequiredClauses(workflow, events);
    if tree.None? || |required| != 2 { return false; }
    var clauses := Compile(tree.value);
    forall w | Symmetric(w) && clauses.Some? { CompiledHolds(tree.value, w); }
    exact := clauses == Some(required);
  }

  ghost predicate FieldIs(w: World, field: string, text: string) { w.same(w.field(field), Text(text)) }

  /** A trusted CI job runs only for a push to dev or main in protected mode. */
  lemma TrustedPushRuns(events: Events, tree: Expr, w: World)
    requires Compiled(tree).Some? && Compiled(tree).value <= RequiredClauses("CI", events) && Symmetric(w) && Holds(tree, w)
    ensures FieldIs(w, MODE, "protected") && FieldIs(w, EVENT, "push")
    ensures FieldIs(w, REF, "refs/heads/dev") || FieldIs(w, REF, "refs/heads/main")
  {
    CompiledHolds(tree, w);
    hide Compiled, Holds;
    var c :| c in Compiled(tree).value && ClauseHolds(c, w);
    var branch := if c == PushClause("dev") then "dev" else "main";
    assert c == PushClause(branch);
    assert IsText(MODE, "protected") in c && IsText(EVENT, "push") in c && IsText(REF, "refs/heads/" + branch) in c;
    assert AtomHolds(IsText(MODE, "protected"), w) && AtomHolds(IsText(EVENT, "push"), w) && AtomHolds(IsText(REF, "refs/heads/" + branch), w);
    assert "refs/heads/" + "dev" == "refs/heads/dev" && "refs/heads/" + "main" == "refs/heads/main";
  }

  /** A trusted deploy job runs only after a successful CI push run on main of the very commit it deploys. */
  lemma TrustedDeployRuns(events: Events, tree: Expr, w: World)
    requires Compiled(tree) == Some(RequiredClauses(DEPLOY_MAIN, events)) && Symmetric(w) && Holds(tree, w)
    ensures FieldIs(w, RUN + "conclusion", "success") && FieldIs(w, RUN + "head_branch", "main") && FieldIs(w, DEPLOYMENT_ENABLED, "enabled")
    ensures w.same(w.field(WORKFLOW_SHA), w.field(RUN + "head_sha"))
    ensures FieldIs(w, MODE, "protected") || FieldIs(w, MODE, "guarded_private")
  {
    CompiledHolds(tree, w);
    hide Compiled, Holds;
    var c :| c in RequiredClauses(DEPLOY_MAIN, events) && ClauseHolds(c, w);
    var mode := if c == DeployClause("protected") then "protected" else "guarded_private";
    assert c == DeployClause(mode);
    InCommon(c, mode, w);
  }

  lemma InCommon(c: Clause, mode: string, w: World)
    requires c == DeployClause(mode) && ClauseHolds(c, w) && Symmetric(w)
    ensures FieldIs(w, RUN + "conclusion", "success") && FieldIs(w, RUN + "head_branch", "main") && FieldIs(w, DEPLOYMENT_ENABLED, "enabled")
    ensures w.same(w.field(WORKFLOW_SHA), w.field(RUN + "head_sha")) && FieldIs(w, MODE, mode)
  {
  }
}
