/** What an expression means: a relation with one rule per construct, which the evaluator is proved to decide
    (packages/model-option-map/src/evaluator.ts:17-178). */
module Meanings {
  import opened Json
  import opened Numerals
  import opened Expressions
  import opened Printing
  import opened Evaluator

  /** A number that survives JSON: finite, and a safe integer if it is an integer. */
  ghost predicate Fits(n: real) {
    -9007199254740991.0 <= n <= 9007199254740991.0
  }

  /** The remainder of the division that truncates towards zero; it has the sign of the dividend. */
  ghost predicate IsRemainder(dividend: real, divisor: real, m: real) {
    && (exists q :: Leaves(dividend, divisor, q, m))
    && Magnitude(m) < Magnitude(divisor)
    && (m > 0.0 ==> dividend > 0.0) && (m < 0.0 ==> dividend < 0.0)
  }

  ghost predicate Leaves(dividend: real, divisor: real, q: int, m: real) {
    dividend == divisor * q as real + m
  }

  ghost function Magnitude(n: real): real {
    if n < 0.0 then -n else n
  }

  /** The order of strings: at the first difference the smaller character decides, and a prefix comes first. */
  ghost predicate Before(a: string, b: string) {
    exists k :: BeforeAt(a, b, k)
  }

  ghost predicate BeforeAt(a: string, b: string, k: nat) {
    k <= |a| && k < |b| && a[..k] == b[..k] && (k == |a| || a[k] < b[k])
  }

  ghost predicate UnaryMeans(op: string, w: Value, v: Value) {
    match op
    case "!" => w.Bool? && v == Bool(!w.b)
    case "-" => w.Num? && v == Num(-w.n) && Fits(v.n)
    case "+" => w.Num? && v == w && Fits(v.n)
    case _ => false
  }

  ghost predicate OrderMeans(less: bool, equal: bool, op: string, v: Value) {
    match op
    case "<" => v == Bool(less)
    case "<=" => v == Bool(less || equal)
    case ">" => v == Bool(!less && !equal)
    case ">=" => v == Bool(!less)
    case _ => false
  }

  /** The operators that need both their operands. */
  ghost predicate BinaryMeans(op: string, l: Value, r: Value, v: Value) {
    if op == "==" then v == Bool(l == r)
    else if op == "!=" then v == Bool(l != r)
    else if l.Str? && r.Str? then
      if op == "+" then v == Str(l.s + r.s) else OrderMeans(Before(l.s, r.s), l.s == r.s, op, v)
    else
      && l.Num? && r.Num?
      && match op
         case "+" => v == Num(l.n + r.n) && Fits(v.n)
         case "-" => v == Num(l.n - r.n) && Fits(v.n)
         case "*" => v == Num(l.n * r.n) && Fits(v.n)
         case "/" => r.n != 0.0 && v.Num? && v.n * r.n == l.n && Fits(v.n)
         case "%" => r.n != 0.0 && v.Num? && IsRemainder(l.n, r.n, v.n) && Fits(v.n)
         case _ => OrderMeans(l.n < r.n, l.n == r.n, op, v)
  }

  /** On this input the expression has this value.  Of a conditional only the branch chosen counts, and of && and || the
      right operand only if the left one does not decide. */
  ghost predicate Yields(e: Expr, input: Value, v: Value)
    decreases e, 1
  {
    match e
    case StringLit(s) => v == Str(s)
    case NumberLit(text) => IsNumber(text) && v == Num(ValueOf(text))
    case BoolLit(b) => v == Bool(b)
    case NullLit => v == Null
    case Input => v == input
    case ArrayLit(elements) =>
      v.Arr? && |v.elements| == |elements| && forall k :: 0 <= k < |elements| ==> Yields(elements[k], input, v.elements[k])
    case ObjectLit(entries) =>
      && v.Obj? && (forall key :: key in v.members <==> HasKey(entries, key))
      && forall k :: 0 <= k < |entries| ==>
           entries[k].key in v.members && Yields(entries[k].value, input, v.members[entries[k].key])
    case Unary(op, operand) => exists w :: Yields(operand, input, w) && UnaryMeans(op, w, v)
    case Binary(op, left, right) =>
      if op == "&&" then
        || (Yields(left, input, Bool(false)) && v == Bool(false))
        || (Yields(left, input, Bool(true)) && Yields(right, input, v) && v.Bool?)
      else if op == "||" then
        || (Yields(left, input, Bool(true)) && v == Bool(true))
        || (Yields(left, input, Bool(false)) && Yields(right, input, v) && v.Bool?)
      else YieldsBoth(e, input, v)
    case Conditional(c, t, f) =>
      || (Yields(c, input, Bool(true)) && Yields(t, input, v))
      || (Yields(c, input, Bool(false)) && Yields(f, input, v))
  }

  /** Both operands have values, and these give this one. */
  ghost predicate YieldsBoth(e: Expr, input: Value, v: Value)
    requires e.Binary?
    decreases e, 0
  {
    exists l, r :: Yields(e.left, input, l) && Yields(e.right, input, r) && BinaryMeans(e.op, l, r, v)
  }

  // ---------- the operators ----------

  lemma {:induction false} StringLessIsBefore(a: string, b: string)
    ensures StringLess(a, b) <==> Before(a, b)
    decreases |a|
  {
    if b == [] {
    } else if a == [] {
      assert BeforeAt(a, b, 0);
    } else if a[0] != b[0] {
      FirstDecides(a, b);
    } else {
      StringLessIsBefore(a[1..], b[1..]);
      BeforeTail(a, b);
    }
  }

  lemma FirstDecides(a: string, b: string)
    requires a != [] && b != [] && a[0] != b[0]
    ensures Before(a, b) <==> a[0] < b[0]
  {
    assert BeforeAt(a, b, 0) <==> a[0] < b[0];
    forall k: nat | BeforeAt(a, b, k) ensures k == 0 {
    }
  }

  lemma BeforeTail(a: string, b: string)
    requires a != [] && b != [] && a[0] == b[0]
    ensures Before(a, b) <==> Before(a[1..], b[1..])
  {
    if Before(a, b) {
      var k: nat :| BeforeAt(a, b, k);
      assert a[1..][..k - 1] == a[..k][1..] && b[1..][..k - 1] == b[..k][1..];
      assert BeforeAt(a[1..], b[1..], k - 1);
    }
    if Before(a[1..], b[1..]) {
      var k: nat :| BeforeAt(a[1..], b[1..], k);
      assert a[..k + 1] == [a[0]] + a[1..][..k] && b[..k + 1] == [b[0]] + b[1..][..k];
      assert BeforeAt(a, b, k + 1);
    }
  }

  lemma BeforeIsAnOrder(a: string, b: string)
    ensures StringLess(b, a) <==> !StringLess(a, b) && a != b
    decreases |a|
  {
    if a != [] && b != [] {
      BeforeIsAnOrder(a[1..], b[1..]);
      assert a == [a[0]] + a[1..] && b == [b[0]] + b[1..];
    }
  }

  /** A part of the divisor smaller than the whole. */
  lemma PartOf(r: real, x: real)
    requires r != 0.0 && -1.0 < x < 1.0
    ensures Magnitude(r * x) < Magnitude(r)
    ensures (r * x > 0.0 <==> (r > 0.0 && x > 0.0) || (r < 0.0 && x < 0.0))
    ensures (r * x < 0.0 <==> (r > 0.0 && x < 0.0) || (r < 0.0 && x > 0.0))
  {
    if r > 0.0 {
      assert r * (1.0 - x) > 0.0 && r * (1.0 + x) > 0.0;
      assert x > 0.0 ==> r * x > 0.0;
      assert x < 0.0 ==> r * -x > 0.0;
    } else {
      assert -r * (1.0 - x) > 0.0 && -r * (1.0 + x) > 0.0;
      assert x > 0.0 ==> -r * x > 0.0;
      assert x < 0.0 ==> -r * -x > 0.0;
    }
  }

  lemma Proportion(l: real, r: real) returns (d: real)
    requires r != 0.0
    ensures d == Quotient(l, r) && l == r * d
    ensures (l > 0.0 <==> (r > 0.0 && d > 0.0) || (r < 0.0 && d < 0.0))
    ensures (l < 0.0 <==> (r > 0.0 && d < 0.0) || (r < 0.0 && d > 0.0))
  {
    d := Quotient(l, r);
    assert d * r == l;
    hide Quotient;
    if r > 0.0 {
      assert d > 0.0 ==> r * d > 0.0;
      assert d < 0.0 ==> r * -d > 0.0;
    } else {
      assert d > 0.0 ==> -r * d > 0.0;
      assert d < 0.0 ==> -r * -d > 0.0;
    }
  }

  lemma TruncatedLeavesRemainder(l: real, r: real)
    requires r != 0.0
    ensures IsRemainder(l, r, Remainder(l, r))
  {
    hide Quotient, IsRemainder;
    var d := Proportion(l, r);
    var t := Truncated(d);
    var x := d - t as real;
    assert -1.0 < x < 1.0 && (x > 0.0 ==> d > 0.0) && (x < 0.0 ==> d < 0.0);
    PartOf(r, x);
    var m := Remainder(l, r);
    assert m == r * x by { Distributes(r, d, t as real); }
    assert Leaves(l, r, t, m);
    RemainderIs(l, r, t, m);
  }

  lemma RemainderIs(l: real, r: real, q: int, m: real)
    requires Leaves(l, r, q, m) && Magnitude(m) < Magnitude(r) && (m > 0.0 ==> l > 0.0) && (m < 0.0 ==> l < 0.0)
    ensures IsRemainder(l, r, m)
  {
    hide Leaves, Magnitude;
  }

  lemma Distributes(r: real, d: real, t: real)
    ensures r * (d - t) == r * d - r * t
  {
  }

  lemma RemainderIsUnique(l: real, r: real, m: real, n: real)
    requires r != 0.0 && IsRemainder(l, r, m) && IsRemainder(l, r, n)
    ensures m == n
  {
    var p := WholeQuotient(l, r, m);
    var q := WholeQuotient(l, r, n);
    Apart(m, n, Magnitude(r), l);
    hide IsRemainder, Leaves, Magnitude;
    Difference(l, r, p, q, m, n);
    if p != q {
      WholeMultiple(r, q - p);
      assert false;
    }
  }

  lemma WholeQuotient(l: real, r: real, m: real) returns (q: int)
    requires IsRemainder(l, r, m)
    ensures Leaves(l, r, q, m)
  {
    hide Leaves, Magnitude;
    q :| Leaves(l, r, q, m);
  }

  lemma Apart(m: real, n: real, bound: real, l: real)
    requires Magnitude(m) < bound && (m > 0.0 ==> l > 0.0) && (m < 0.0 ==> l < 0.0)
    requires Magnitude(n) < bound && (n > 0.0 ==> l > 0.0) && (n < 0.0 ==> l < 0.0)
    ensures Magnitude(m - n) < bound
  {
  }

  lemma Difference(l: real, r: real, p: int, q: int, m: real, n: real)
    requires Leaves(l, r, p, m) && Leaves(l, r, q, n)
    ensures m - n == r * (q - p) as real && (p == q ==> m == n)
  {
    Distributes(r, q as real, p as real);
    assert (q - p) as real == q as real - p as real;
  }

  lemma WholeMultiple(r: real, k: int)
    requires k != 0
    ensures Magnitude(r * k as real) >= Magnitude(r)
  {
    var x := k as real;
    assert x >= 1.0 || x <= -1.0;
    Grows(Magnitude(r), Magnitude(x));
    SameSize(r, x);
  }

  lemma Grows(a: real, b: real)
    requires a >= 0.0 && b >= 1.0
    ensures a * b >= a
  {
    assert a * b - a == a * (b - 1.0);
  }

  lemma SameSize(r: real, x: real)
    ensures Magnitude(r * x) == Magnitude(r) * Magnitude(x)
  {
    assert (-r) * x == -(r * x) && r * (-x) == -(r * x);
    Sign(r, x);
  }

  lemma Sign(r: real, x: real)
    ensures (r >= 0.0 && x >= 0.0) || (r < 0.0 && x < 0.0) ==> r * x >= 0.0
    ensures (r >= 0.0 && x < 0.0) || (r < 0.0 && x >= 0.0) ==> r * x <= 0.0
  {
  }

  lemma UnaryIff(op: string, w: Value, v: Value)
    requires op in UNARY_OPERATORS
    ensures EvaluateUnary(op, w) == Got(v) <==> UnaryMeans(op, w, v)
  {
  }

  ghost predicate IsBinaryOperator(op: string) {
    op in {"==", "!=", "<", "<=", ">", ">=", "+", "-", "*", "/", "%"}
  }

  lemma OrderIff(op: string, less: bool, equal: bool, v: Value)
    requires op in {"<", "<=", ">", ">="} && !(less && equal)
    ensures v == Bool(ByOrder(op, less, !less && !equal)) <==> OrderMeans(less, equal, op, v)
  {
  }

  lemma CompareIff(op: string, l: Value, r: Value, v: Value)
    requires op in {"<", "<=", ">", ">="}
    ensures Compare(op, l, r) == Got(v) <==> BinaryMeans(op, l, r, v)
  {
    hide StringLess, Before;
    if l.Num? && r.Num? {
      OrderIff(op, l.n < r.n, l.n == r.n, v);
    } else if l.Str? && r.Str? {
      StringLessIsBefore(l.s, r.s);
      BeforeIsAnOrder(l.s, r.s);
      BeforeIsAnOrder(r.s, l.s);
      OrderIff(op, Before(l.s, r.s), l.s == r.s, v);
    }
  }

  lemma DivisionIff(l: real, r: real, q: real)
    requires r != 0.0
    ensures q == Quotient(l, r) <==> q * r == l
  {
  }

  lemma RemainderIff(l: real, r: real, m: real)
    requires r != 0.0
    ensures m == Remainder(l, r) <==> IsRemainder(l, r, m)
  {
    hide IsRemainder, Remainder;
    var n := Remainder(l, r);
    TruncatedLeavesRemainder(l, r);
    if IsRemainder(l, r, m) {
      RemainderIsUnique(l, r, m, n);
    }
  }

  lemma FitsIffSafe(n: real)
    ensures Fits(n) <==> JsonSafe(n)
  {
  }

  lemma DividingIff(op: string, l: real, r: real, v: Value)
    requires op in {"/", "%"} && r != 0.0
    ensures Arithmetic(op, Num(l), Num(r)) == Got(v) <==> BinaryMeans(op, Num(l), Num(r), v)
  {
    hide IsRemainder, Remainder, Quotient, Fits, AssertNumber;
    AssertNumberIff(Quotient(l, r), v);
    AssertNumberIff(Remainder(l, r), v);
    if v.Num? {
      DivisionIff(l, r, v.n);
      RemainderIff(l, r, v.n);
    }
  }

  lemma AssertNumberIff(n: real, v: Value)
    ensures AssertNumber(n) == Got(v) <==> v == Num(n) && Fits(n)
  {
  }

  lemma ArithmeticIff(op: string, l: Value, r: Value, v: Value)
    requires op in {"+", "-", "*", "/", "%"} && !(l.Str? && r.Str?)
    ensures Arithmetic(op, l, r) == Got(v) <==> BinaryMeans(op, l, r, v)
  {
    hide IsRemainder, Remainder, Quotient;
    if l.Num? && r.Num? && op in {"/", "%"} {
      if r.n != 0.0 {
        DividingIff(op, l.n, r.n, v);
      }
    }
  }

  lemma BinaryIff(op: string, l: Value, r: Value, v: Value)
    requires IsBinaryOperator(op)
    ensures EvaluateBinary(op, l, r) == Got(v) <==> BinaryMeans(op, l, r, v)
  {
    hide Compare, JsonEquals, Remainder, Quotient, IsRemainder, Before;
    JsonEqualsIsEquality(l, r);
    if op in {"<", "<=", ">", ">="} {
      CompareIff(op, l, r, v);
    } else if op in {"+", "-", "*", "/", "%"} {
      if !(l.Str? && r.Str?) {
        hide Arithmetic;
        ArithmeticIff(op, l, r, v);
      }
    }
  }

  // ---------- every expression ----------

  /** The evaluator decides what an expression means: it returns a value exactly if the expression has that value on the
      input.  This is for every tree that has a source text, and every input. */
  lemma {:induction false} EvaluatesIff(e: Expr, input: Value, v: Value)
    requires Expressible(e)
    ensures Evaluate(e, input) == Got(v) <==> Yields(e, input, v)
    decreases e, 0
  {
    hide Evaluate, Yields;
    match e
    case ArrayLit(elements) =>
      ElementsIff(elements, [], input, v);
      ArrayIff(elements, input, v);
    case ObjectLit(entries) =>
      EntriesIff(entries, map[], input, v);
      ObjectIff(entries, input, v);
    case Unary(_, operand) =>
      BothIff(operand, input);
      PrefixedIff(e, input, v);
    case Binary(_, left, right) =>
      BothIff(left, input);
      BothIff(right, input);
      JoinedIff(e, input, v);
    case Conditional(c, t, f) =>
      BothIff(c, input);
      BothIff(t, input);
      BothIff(f, input);
      ConditionalIff(e, input, v);
    case _ =>
      LeafIff(e, input, v);
  }

  lemma LeafIff(e: Expr, input: Value, v: Value)
    requires Expressible(e) && (e.StringLit? || e.NumberLit? || e.BoolLit? || e.NullLit? || e.Input?)
    ensures Evaluate(e, input) == Got(v) <==> Yields(e, input, v)
  {
    hide ValueOf, IsNumber;
  }

  ghost predicate Decided(e: Expr, input: Value) {
    forall w :: Yields(e, input, w) <==> Evaluate(e, input) == Got(w)
  }

  lemma ArrayIff(elements: seq<Expr>, input: Value, v: Value)
    requires EvaluateElements(elements, [], input) == Got(v) <==> ElementsHold(elements, [], input, v)
    ensures Evaluate(ArrayLit(elements), input) == Got(v) <==> Yields(ArrayLit(elements), input, v)
  {
    hide Yields;
    YieldsArray(elements, input, v);
    assert v.Arr? ==> v.elements[..0] == [];
  }

  lemma YieldsArray(elements: seq<Expr>, input: Value, v: Value)
    ensures Yields(ArrayLit(elements), input, v) <==>
      v.Arr? && |v.elements| == |elements| && forall k :: 0 <= k < |elements| ==> Yields(elements[k], input, v.elements[k])
  {
  }

  lemma ObjectIff(entries: seq<Entry>, input: Value, v: Value)
    requires EvaluateEntries(entries, map[], input) == Got(v) <==> EntriesHold(entries, map[], input, v)
    ensures Evaluate(ObjectLit(entries), input) == Got(v) <==> Yields(ObjectLit(entries), input, v)
  {
    hide HasKey;
  }

  lemma PrefixedIff(e: Expr, input: Value, v: Value)
    requires e.Unary? && Expressible(e) && Decided(e.operand, input)
    ensures Evaluate(e, input) == Got(v) <==> Yields(e, input, v)
  {
    hide EvaluateUnary, UnaryMeans;
    var w := Evaluate(e.operand, input);
    if w.Got? {
      assert Yields(e.operand, input, w.value);
      UnaryIff(e.op, w.value, v);
    }
  }

  lemma JoinedIff(e: Expr, input: Value, v: Value)
    requires e.Binary? && Expressible(e) && Decided(e.left, input) && Decided(e.right, input)
    ensures Evaluate(e, input) == Got(v) <==> Yields(e, input, v)
  {
    hide EvaluateBinary, BinaryMeans, Expressible;
    if e.op == "&&" || e.op == "||" {
      ShortCircuitIff(e, input, v);
    } else {
      assert IsBinaryOperator(e.op) by { OperatorIsBinary(e); }
      StrictIff(e, input, v);
    }
  }

  lemma OperatorIsBinary(e: Expr)
    requires e.Binary? && Expressible(e) && e.op != "&&" && e.op != "||"
    ensures IsBinaryOperator(e.op)
  {
  }

  lemma ShortCircuitIff(e: Expr, input: Value, v: Value)
    requires e.Binary? && (e.op == "&&" || e.op == "||") && Decided(e.left, input) && Decided(e.right, input)
    ensures Evaluate(e, input) == Got(v) <==> Yields(e, input, v)
  {
    hide Evaluate, Yields;
    assert Yields(e.left, input, Bool(true)) <==> Evaluate(e.left, input) == Got(Bool(true));
    assert Yields(e.left, input, Bool(false)) <==> Evaluate(e.left, input) == Got(Bool(false));
    assert Yields(e.right, input, v) <==> Evaluate(e.right, input) == Got(v);
    EvaluateShortCircuit(e, input);
    YieldsShortCircuit(e, input, v);
  }

  lemma EvaluateShortCircuit(e: Expr, input: Value)
    requires e.Binary? && (e.op == "&&" || e.op == "||")
    ensures Evaluate(e, input) ==
      match Evaluate(e.left, input)
      case Got(Bool(b)) =>
        if b == (e.op == "||") then Got(Bool(b))
        else
          (match Evaluate(e.right, input)
           case Got(Bool(c)) => Got(Bool(c))
           case _ => Failed)
      case _ => Failed
  {
    hide EvaluateBinary;
  }

  lemma YieldsShortCircuit(e: Expr, input: Value, v: Value)
    requires e.Binary? && (e.op == "&&" || e.op == "||")
    ensures Yields(e, input, v) <==>
      || (Yields(e.left, input, Bool(e.op == "||")) && v == Bool(e.op == "||"))
      || (Yields(e.left, input, Bool(e.op == "&&")) && Yields(e.right, input, v) && v.Bool?)
  {
    hide BinaryMeans, UnaryMeans, HasKey, IsNumber;
  }

  lemma StrictIff(e: Expr, input: Value, v: Value)
    requires e.Binary? && IsBinaryOperator(e.op) && Decided(e.left, input) && Decided(e.right, input)
    ensures Evaluate(e, input) == Got(v) <==> Yields(e, input, v)
  {
    hide Evaluate, Yields, EvaluateBinary, BinaryMeans;
    var l, r := Evaluate(e.left, input), Evaluate(e.right, input);
    EvaluateStrict(e, input);
    YieldsStrict(e, input, v);
    if l.Got? && r.Got? {
      assert Yields(e.left, input, l.value) && Yields(e.right, input, r.value);
      BinaryIff(e.op, l.value, r.value, v);
    }
  }

  lemma EvaluateStrict(e: Expr, input: Value)
    requires e.Binary? && IsBinaryOperator(e.op)
    ensures Evaluate(e, input) ==
      match Evaluate(e.left, input)
      case Failed => Failed
      case Got(l) =>
        match Evaluate(e.right, input)
        case Failed => Failed
        case Got(r) => EvaluateBinary(e.op, l, r)
  {
    hide EvaluateBinary;
  }

  lemma YieldsStrict(e: Expr, input: Value, v: Value)
    requires e.Binary? && IsBinaryOperator(e.op)
    ensures Yields(e, input, v) <==> YieldsBoth(e, input, v)
  {
    hide BinaryMeans, UnaryMeans, HasKey, IsNumber;
  }

  lemma ConditionalIff(e: Expr, input: Value, v: Value)
    requires e.Conditional? && Decided(e.condition, input) && Decided(e.whenTrue, input) && Decided(e.whenFalse, input)
    ensures Evaluate(e, input) == Got(v) <==> Yields(e, input, v)
  {
    hide Evaluate, Yields;
    assert Yields(e.condition, input, Bool(true)) <==> Evaluate(e.condition, input) == Got(Bool(true));
    assert Yields(e.condition, input, Bool(false)) <==> Evaluate(e.condition, input) == Got(Bool(false));
    assert Yields(e.whenTrue, input, v) <==> Evaluate(e.whenTrue, input) == Got(v);
    assert Yields(e.whenFalse, input, v) <==> Evaluate(e.whenFalse, input) == Got(v);
    EvaluateConditional(e, input);
    YieldsConditional(e, input, v);
  }

  lemma EvaluateConditional(e: Expr, input: Value)
    requires e.Conditional?
    ensures Evaluate(e, input) ==
      match Evaluate(e.condition, input)
      case Got(Bool(b)) => if b then Evaluate(e.whenTrue, input) else Evaluate(e.whenFalse, input)
      case _ => Failed
  {
  }

  lemma YieldsConditional(e: Expr, input: Value, v: Value)
    requires e.Conditional?
    ensures Yields(e, input, v) <==>
      || (Yields(e.condition, input, Bool(true)) && Yields(e.whenTrue, input, v))
      || (Yields(e.condition, input, Bool(false)) && Yields(e.whenFalse, input, v))
  {
    hide BinaryMeans, UnaryMeans, HasKey, IsNumber;
  }

  /** The theorem for all values at once. */
  lemma {:induction false} BothIff(e: Expr, input: Value)
    requires Expressible(e)
    ensures Decided(e, input)
    decreases e, 1
  {
    hide Evaluate, Yields, Expressible;
    forall w ensures Yields(e, input, w) <==> Evaluate(e, input) == Got(w) {
      EvaluatesIff(e, input, w);
    }
  }

  ghost predicate ElementsHold(elements: seq<Expr>, before: seq<Value>, input: Value, v: Value) {
    && v.Arr? && |v.elements| == |before| + |elements| && v.elements[..|before|] == before
    && forall k :: 0 <= k < |elements| ==> Yields(elements[k], input, v.elements[|before| + k])
  }

  lemma {:induction false} ElementsIff(elements: seq<Expr>, before: seq<Value>, input: Value, v: Value)
    requires forall k :: 0 <= k < |elements| ==> Expressible(elements[k])
    ensures EvaluateElements(elements, before, input) == Got(v) <==> ElementsHold(elements, before, input, v)
    decreases elements, 0
  {
    hide Yields, Evaluate, Expressible, ElementsHold;
    if elements == [] {
      NoMoreElements(before, input, v);
    } else {
      BothIff(elements[0], input);
      var r := Evaluate(elements[0], input);
      if r.Got? {
        ElementsIff(elements[1..], before + [r.value], input, v);
        ElementsShift(elements, before, r.value, input, v);
      } else {
        FirstElementNeeded(elements, before, input, v);
      }
    }
  }

  lemma NoMoreElements(before: seq<Value>, input: Value, v: Value)
    ensures ElementsHold([], before, input, v) <==> v == Arr(before)
  {
    assert v.Arr? && |v.elements| == |before| ==> v.elements[..|before|] == v.elements;
  }

  lemma FirstElementNeeded(elements: seq<Expr>, before: seq<Value>, input: Value, v: Value)
    requires elements != [] && forall w :: !Yields(elements[0], input, w)
    ensures !ElementsHold(elements, before, input, v)
  {
    hide Yields;
    assert v.Arr? && |v.elements| == |before| + |elements| ==> !Yields(elements[0], input, v.elements[|before| + 0]);
  }

  lemma ElementsShift(elements: seq<Expr>, before: seq<Value>, first: Value, input: Value, v: Value)
    requires elements != [] && forall w :: Yields(elements[0], input, w) <==> w == first
    ensures ElementsHold(elements, before, input, v) <==> ElementsHold(elements[1..], before + [first], input, v)
  {
    hide Yields;
    if v.Arr? && |v.elements| == |before| + |elements| {
      var n, rest, more := |before|, elements[1..], before + [first];
      assert v.elements[..n + 1] == v.elements[..n] + [v.elements[n]];
      assert v.elements[..n + 1] == more <==> v.elements[..n] == before && v.elements[n] == first by {
        assert v.elements[..n + 1][..n] == v.elements[..n] && more[..n] == before && more[n] == first;
      }
      if ElementsHold(elements, before, input, v) {
        assert Yields(elements[0], input, v.elements[n + 0]);
        forall k | 0 <= k < |rest| ensures Yields(rest[k], input, v.elements[|more| + k]) {
          assert Yields(elements[k + 1], input, v.elements[n + (k + 1)]);
        }
      }
      if ElementsHold(rest, more, input, v) {
        forall k | 0 <= k < |elements| ensures Yields(elements[k], input, v.elements[n + k]) {
          if k > 0 {
            assert Yields(rest[k - 1], input, v.elements[|more| + (k - 1)]);
          }
        }
      }
    }
  }

  ghost predicate EntriesHold(entries: seq<Entry>, before: map<string, Value>, input: Value, v: Value) {
    && v.Obj? && (forall key :: key in v.members <==> key in before || HasKey(entries, key))
    && (forall key :: key in before ==> v.members[key] == before[key])
    && forall k :: 0 <= k < |entries| ==>
         entries[k].key in v.members && Yields(entries[k].value, input, v.members[entries[k].key])
  }

  lemma {:induction false} EntriesIff(entries: seq<Entry>, before: map<string, Value>, input: Value, v: Value)
    requires DistinctKeys(entries) && forall k :: 0 <= k < |entries| ==> Expressible(entries[k].value) && entries[k].key !in before
    ensures EvaluateEntries(entries, before, input) == Got(v) <==> EntriesHold(entries, before, input, v)
    decreases entries, 0
  {
    hide Yields, Evaluate, Expressible, EntriesHold;
    if entries == [] {
      NoMoreEntries(before, input, v);
    } else {
      BothIff(entries[0].value, input);
      var r := Evaluate(entries[0].value, input);
      if r.Got? {
        EntriesIff(entries[1..], before[entries[0].key := r.value], input, v);
        EntriesShift(entries, before, r.value, input, v);
      } else {
        FirstEntryNeeded(entries, before, input, v);
      }
    }
  }

  lemma NoMoreEntries(before: map<string, Value>, input: Value, v: Value)
    ensures EntriesHold([], before, input, v) <==> v == Obj(before)
  {
    if EntriesHold([], before, input, v) {
      assert v.members == before;
    }
  }

  lemma FirstEntryNeeded(entries: seq<Entry>, before: map<string, Value>, input: Value, v: Value)
    requires entries != [] && forall w :: !Yields(entries[0].value, input, w)
    ensures !EntriesHold(entries, before, input, v)
  {
    hide Yields;
    assert v.Obj? && entries[0].key in v.members ==> !Yields(entries[0].value, input, v.members[entries[0].key]);
  }

  lemma EntriesShift(entries: seq<Entry>, before: map<string, Value>, first: Value, input: Value, v: Value)
    requires entries != [] && forall w :: Yields(entries[0].value, input, w) <==> w == first
    requires DistinctKeys(entries) && entries[0].key !in before
    ensures EntriesHold(entries, before, input, v) <==> EntriesHold(entries[1..], before[entries[0].key := first], input, v)
  {
    hide Yields;
    var rest := entries[1..];
    forall key ensures HasKey(entries, key) <==> key == entries[0].key || HasKey(rest, key) {
      if HasKey(rest, key) {
        var k :| 0 <= k < |rest| && rest[k].key == key;
        assert entries[k + 1].key == key;
      }
      if HasKey(entries, key) && key != entries[0].key {
        var k :| 0 <= k < |entries| && entries[k].key == key;
        assert rest[k - 1].key == key;
      }
    }
    if EntriesHold(rest, before[entries[0].key := first], input, v) {
      forall k | 0 <= k < |entries|
        ensures entries[k].key in v.members && Yields(entries[k].value, input, v.members[entries[k].key])
      {
        assert k > 0 ==> entries[k] == rest[k - 1];
      }
    }
  }

  /** And it fails exactly if the expression has no value at all. */
  lemma {:induction false} FailsIff(e: Expr, input: Value)
    requires Expressible(e)
    ensures Evaluate(e, input) == Failed <==> forall v :: !Yields(e, input, v)
  {
    hide Yields, Evaluate, Expressible;
    BothIff(e, input);
    var r := Evaluate(e, input);
    assert r.Got? ==> Yields(e, input, r.value);
  }
}
