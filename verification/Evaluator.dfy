/** Evaluating expressions, and the compile-time check of option maps
    (packages/model-option-map/src/evaluator.ts, packages/model-option-map/src/compiler.ts:67-88).
    Numbers are exact reals. */
module Evaluator {
  import opened Json
  import opened Numerals
  import opened Tokenizer
  import opened Expressions
  import opened Printing

  datatype Result = Got(value: Value) | Failed

  function AssertNumber(n: real): Result {
    if JsonSafe(n) then Got(Num(n)) else Failed
  }

  function EvaluateUnary(op: string, operand: Value): Result {
    if op == "!" then if operand.Bool? then Got(Bool(!operand.b)) else Failed
    else if operand.Num? then AssertNumber(if op == "-" then -operand.n else operand.n)
    else Failed
  }

  function Truncated(r: real): int {
    if r < 0.0 then -((-r).Floor) else r.Floor
  }

  function Quotient(l: real, r: real): real
    requires r != 0.0
  {
    l / r
  }

  /** What % computes. */
  function Remainder(l: real, r: real): real
    requires r != 0.0
  {
    l - r * Truncated(Quotient(l, r)) as real
  }

  /** Equality as the evaluator computes it, by walking both values. */
  function JsonEquals(left: Value, right: Value): bool {
    if left.Arr? || right.Arr? then
      && left.Arr? && right.Arr? && |left.elements| == |right.elements|
      && forall k :: 0 <= k < |left.elements| ==> JsonEquals(left.elements[k], right.elements[k])
    else if left.Obj? && right.Obj? then
      && |left.members| == |right.members|
      && forall key :: key in left.members ==> key in right.members && JsonEquals(left.members[key], right.members[key])
    else left == right
  }

  predicate StringLess(a: string, b: string) {
    if b == [] then false
    else if a == [] then true
    else if a[0] != b[0] then a[0] < b[0]
    else StringLess(a[1..], b[1..])
  }

  function Compare(op: string, left: Value, right: Value): Result {
    if left.Num? && right.Num? then Got(Bool(ByOrder(op, left.n < right.n, right.n < left.n)))
    else if left.Str? && right.Str? then Got(Bool(ByOrder(op, StringLess(left.s, right.s), StringLess(right.s, left.s))))
    else Failed
  }

  function ByOrder(op: string, less: bool, greater: bool): bool {
    if op == "<" then less else if op == "<=" then !greater else if op == ">" then greater else !less
  }

  function Arithmetic(op: string, left: Value, right: Value): Result {
    if !left.Num? || !right.Num? then Failed
    else if op == "+" then AssertNumber(left.n + right.n)
    else if op == "-" then AssertNumber(left.n - right.n)
    else if op == "*" then AssertNumber(left.n * right.n)
    else if right.n == 0.0 then Failed
    else if op == "/" then AssertNumber(Quotient(left.n, right.n))
    else AssertNumber(Remainder(left.n, right.n))
  }

  /** The operators that evaluate both operands. */
  function EvaluateBinary(op: string, left: Value, right: Value): Result {
    if op == "==" then Got(Bool(JsonEquals(left, right)))
    else if op == "!=" then Got(Bool(!JsonEquals(left, right)))
    else if op == "+" && left.Str? && right.Str? then Got(Str(left.s + right.s))
    else if op in {"+", "-", "*", "/", "%"} then Arithmetic(op, left, right)
    else if op in {"<", "<=", ">", ">="} then Compare(op, left, right)
    else Failed
  }

  function Evaluate(e: Expr, input: Value): Result
    decreases e
  {
    match e
    case StringLit(s) => Got(Str(s))
    case NumberLit(text) => if IsNumber(text) then Got(Num(ValueOf(text))) else Failed
    case BoolLit(b) => Got(Bool(b))
    case NullLit => Got(Null)
    case Input => Got(input)
    case ArrayLit(elements) => EvaluateElements(elements, [], input)
    case ObjectLit(entries) => EvaluateEntries(entries, map[], input)
    case Unary(op, operand) =>
      (match Evaluate(operand, input)
       case Failed => Failed
       case Got(v) => EvaluateUnary(op, v))
    case Binary(op, left, right) =>
      (match Evaluate(left, input)
       case Failed => Failed
       case Got(l) =>
         if op == "&&" || op == "||" then
           if !l.Bool? then Failed
           else if l.b == (op == "||") then Got(l)
           else
             match Evaluate(right, input)
             case Failed => Failed
             case Got(r) => if r.Bool? then Got(r) else Failed
         else
           match Evaluate(right, input)
           case Failed => Failed
           case Got(r) => EvaluateBinary(op, l, r))
    case Conditional(c, t, f) =>
      match Evaluate(c, input)
      case Failed => Failed
      case Got(v) => if !v.Bool? then Failed else if v.b then Evaluate(t, input) else Evaluate(f, input)
  }

  function EvaluateElements(elements: seq<Expr>, before: seq<Value>, input: Value): Result
    decreases elements
  {
    if elements == [] then Got(Arr(before))
    else
      match Evaluate(elements[0], input)
      case Failed => Failed
      case Got(v) => EvaluateElements(elements[1..], before + [v], input)
  }

  function EvaluateEntries(entries: seq<Entry>, before: map<string, Value>, input: Value): Result
    decreases entries
  {
    if entries == [] then Got(Obj(before))
    else
      match Evaluate(entries[0].value, input)
      case Failed => Failed
      case Got(v) => EvaluateEntries(entries[1..], before[entries[0].key := v], input)
  }

  /** What assertRestrictedCelValue lets through. */
  predicate ValidInput(input: Value) {
    input.Str? || (input.Num? && JsonSafe(input.n))
  }

  /** assertObjectResultExpression. */
  predicate ObjectResult(e: Expr) {
    match e
    case ObjectLit(_) => true
    case Conditional(_, t, f) => ObjectResult(t) && ObjectResult(f)
    case _ => false
  }

  // ---------- number safety ----------

  ghost predicate NumbersSafe(v: Value) {
    match v
    case Num(n) => JsonSafe(n)
    case Arr(elements) => forall k :: 0 <= k < |elements| ==> NumbersSafe(elements[k])
    case Obj(members) => forall key :: key in members ==> NumbersSafe(members[key])
    case _ => true
  }

  ghost predicate SafeOutcome(r: Result) {
    r.Got? ==> NumbersSafe(r.value)
  }

  /** Every number anywhere in a result is JSON-safe. */
  lemma {:induction false} ResultsAreNumberSafe(e: Expr, input: Value)
    requires Expressible(e) && ValidInput(input)
    ensures SafeOutcome(Evaluate(e, input))
    decreases e
  {
    hide ValueOf, IsNumber, JsonEquals, StringLess;
    match e
    case ArrayLit(elements) =>
      ElementsAreNumberSafe(elements, [], input);
    case ObjectLit(entries) =>
      EntriesAreNumberSafe(entries, map[], input);
    case Unary(op, operand) =>
      ResultsAreNumberSafe(operand, input);
    case Binary(op, left, right) =>
      ResultsAreNumberSafe(left, input);
      ResultsAreNumberSafe(right, input);
    case Conditional(c, t, f) =>
      ResultsAreNumberSafe(t, input);
      ResultsAreNumberSafe(f, input);
    case _ =>
  }

  lemma {:induction false} ElementsAreNumberSafe(elements: seq<Expr>, before: seq<Value>, input: Value)
    requires ValidInput(input) && forall k :: 0 <= k < |elements| ==> Expressible(elements[k])
    requires forall k :: 0 <= k < |before| ==> NumbersSafe(before[k])
    ensures SafeOutcome(EvaluateElements(elements, before, input))
    decreases elements
  {
    if elements != [] {
      ResultsAreNumberSafe(elements[0], input);
      var r := Evaluate(elements[0], input);
      if r.Got? {
        ElementsAreNumberSafe(elements[1..], before + [r.value], input);
      }
    }
  }

  lemma {:induction false} EntriesAreNumberSafe(entries: seq<Entry>, before: map<string, Value>, input: Value)
    requires ValidInput(input) && forall k :: 0 <= k < |entries| ==> Expressible(entries[k].value)
    requires forall key :: key in before ==> NumbersSafe(before[key])
    ensures SafeOutcome(EvaluateEntries(entries, before, input))
    decreases entries
  {
    if entries != [] {
      ResultsAreNumberSafe(entries[0].value, input);
      var r := Evaluate(entries[0].value, input);
      if r.Got? {
        EntriesAreNumberSafe(entries[1..], before[entries[0].key := r.value], input);
      }
    }
  }

  // ---------- the compile-time object check ----------

  ghost predicate ObjectOutcome(r: Result) {
    r.Got? ==> r.value.Obj?
  }

  lemma {:induction false} EntriesGiveObjects(entries: seq<Entry>, before: map<string, Value>, input: Value)
    ensures ObjectOutcome(EvaluateEntries(entries, before, input))
    decreases |entries|
  {
    hide Evaluate;
    if entries != [] && Evaluate(entries[0].value, input).Got? {
      EntriesGiveObjects(entries[1..], before[entries[0].key := Evaluate(entries[0].value, input).value], input);
    }
  }

  /** An accepted map evaluates to an object or fails: the run-time guard behind it never fires. */
  lemma {:induction false} AcceptedGivesObjects(e: Expr, input: Value)
    requires ObjectResult(e)
    ensures ObjectOutcome(Evaluate(e, input))
    decreases e
  {
    match e
    case ObjectLit(entries) =>
      EntriesGiveObjects(entries, map[], input);
    case Conditional(c, t, f) =>
      AcceptedGivesObjects(t, input);
      AcceptedGivesObjects(f, input);
  }

  lemma {:induction false} ElementsGiveArrays(elements: seq<Expr>, before: seq<Value>, input: Value)
    ensures EvaluateElements(elements, before, input).Got? ==> EvaluateElements(elements, before, input).value.Arr?
    decreases |elements|
  {
    hide Evaluate;
    if elements != [] && Evaluate(elements[0], input).Got? {
      ElementsGiveArrays(elements[1..], before + [Evaluate(elements[0], input).value], input);
    }
  }

  /** The outcomes of a tree: its conditional branches, followed to the end. */
  ghost predicate Branch(e: Expr, b: Expr) {
    if e.Conditional? then Branch(e.whenTrue, b) || Branch(e.whenFalse, b) else b == e
  }

  /** The check rejects a tree only for a branch that never evaluates to an object. */
  lemma {:induction false} RejectedHasNonObjectBranch(e: Expr) returns (b: Expr)
    requires !ObjectResult(e)
    ensures Branch(e, b) && forall input :: ValidInput(input) && Evaluate(b, input).Got? ==> !Evaluate(b, input).value.Obj?
    decreases e
  {
    if e.Conditional? {
      if !ObjectResult(e.whenTrue) {
        b := RejectedHasNonObjectBranch(e.whenTrue);
      } else {
        b := RejectedHasNonObjectBranch(e.whenFalse);
      }
    } else {
      b := e;
      forall input | ValidInput(input) && Evaluate(b, input).Got? ensures !Evaluate(b, input).value.Obj? {
        NoObject(b, input);
      }
    }
  }

  lemma NoObject(e: Expr, input: Value)
    requires !e.ObjectLit? && !e.Conditional? && ValidInput(input)
    ensures Evaluate(e, input).Got? ==> !Evaluate(e, input).value.Obj?
  {
    hide ValueOf, IsNumber, JsonEquals, StringLess, Quotient, Remainder, JsonSafe;
    if e.ArrayLit? {
      ElementsGiveArrays(e.elements, [], input);
    }
  }

  // ---------- equality ----------

  /** The structural walk decides equality of values. */
  lemma {:induction false} JsonEqualsIsEquality(left: Value, right: Value)
    ensures JsonEquals(left, right) <==> left == right
    decreases left
  {
    if left.Arr? && right.Arr? {
      if |left.elements| == |right.elements| {
        forall k | 0 <= k < |left.elements|
          ensures JsonEquals(left.elements[k], right.elements[k]) <==> left.elements[k] == right.elements[k]
        {
          JsonEqualsIsEquality(left.elements[k], right.elements[k]);
        }
        assert JsonEquals(left, right) ==> left.elements == right.elements;
      }
    } else if left.Obj? && right.Obj? {
      forall key | key in left.members && key in right.members
        ensures JsonEquals(left.members[key], right.members[key]) <==> left.members[key] == right.members[key]
      {
        JsonEqualsIsEquality(left.members[key], right.members[key]);
      }
      if JsonEquals(left, right) {
        SameSizeSubset(left.members.Keys, right.members.Keys);
        assert left.members == right.members;
      }
    }
  }

  lemma SameSizeSubset(a: set<string>, b: set<string>)
    requires a <= b && |a| == |b|
    ensures a == b
  {
    assert |b - a| == |b| - |a|;
  }
}
