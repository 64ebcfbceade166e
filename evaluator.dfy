// Evaluation of a formula under an assignment of truth values, and the
// extraction of its variable names in sorted order.

module Evaluation {
  import opened Results
  import opened Parsing

  /** Looking up a variable the assignment does not bind. */
  datatype EvalError = UnboundVariable(name: char)

  /** The names at the `Var` leaves of a formula. */
  function Vars(e: Expr): set<char> {
    match e
    case Var(n) => {n}
    case Not(x) => Vars(x)
    case And(l, r) => Vars(l) + Vars(r)
    case Or(l, r) => Vars(l) + Vars(r)
    case Implies(l, r) => Vars(l) + Vars(r)
    case Biconditional(l, r) => Vars(l) + Vars(r)
  }

  /** The classical meaning of a formula under an assignment that binds all its
      variables, written with Dafny's own connectives. */
  ghost function Truth(e: Expr, a: map<char, bool>): bool
    requires Vars(e) <= a.Keys
  {
    match e
    case Var(n) => a[n]
    case Not(x) => !Truth(x, a)
    case And(l, r) => Truth(l, a) && Truth(r, a)
    case Or(l, r) => Truth(l, a) || Truth(r, a)
    case Implies(l, r) => Truth(l, a) ==> Truth(r, a)
    case Biconditional(l, r) => Truth(l, a) <==> Truth(r, a)
  }

  /** The evaluator. It looks a variable up in the assignment and fails when the
      name is missing. `&`, `|` and `->` evaluate their right side only when the
      left side does not already decide the result; `<->` evaluates both sides,
      left first. */
  function Evaluate(e: Expr, a: map<char, bool>): (r: Result<bool, EvalError>)
    ensures Vars(e) <= a.Keys ==> r == Ok(Truth(e, a))
    ensures r.Err? ==> r.error.name in Vars(e) && r.error.name !in a
  {
    match e
    case Var(n) => if n in a then Ok(a[n]) else Err(UnboundVariable(n))
    case Not(x) =>
      (match Evaluate(x, a)
       case Err(err) => Err(err)
       case Ok(b) => Ok(!b))
    case And(l, r) =>
      (match Evaluate(l, a)
       case Err(err) => Err(err)
       case Ok(b) => if !b then Ok(false) else Evaluate(r, a))
    case Or(l, r) =>
      (match Evaluate(l, a)
       case Err(err) => Err(err)
       case Ok(b) => if b then Ok(true) else Evaluate(r, a))
    case Implies(l, r) =>
      (match Evaluate(l, a)
       case Err(err) => Err(err)
       case Ok(b) => if !b then Ok(true) else Evaluate(r, a))
    case Biconditional(l, r) =>
      (match Evaluate(l, a)
       case Err(err) => Err(err)
       case Ok(b) =>
         match Evaluate(r, a)
         case Err(err) => Err(err)
         case Ok(c) => Ok(b == c))
  }

  /** The truth table of each connective, for assignments binding every variable:
      `!` negates, `&` and `|` are conjunction and disjunction, `->` is false only
      for a true left and a false right side, `<->` is true exactly when both
      sides are equal. */
  lemma ConnectiveTables(l: Expr, r: Expr, a: map<char, bool>)
    requires Vars(l) + Vars(r) <= a.Keys
    ensures Evaluate(Not(l), a) == Ok(true) <==> Evaluate(l, a) == Ok(false)
    ensures Evaluate(And(l, r), a) == Ok(true) <==> Evaluate(l, a) == Ok(true) && Evaluate(r, a) == Ok(true)
    ensures Evaluate(Or(l, r), a) == Ok(false) <==> Evaluate(l, a) == Ok(false) && Evaluate(r, a) == Ok(false)
    ensures Evaluate(Implies(l, r), a) == Ok(false) <==> Evaluate(l, a) == Ok(true) && Evaluate(r, a) == Ok(false)
    ensures Evaluate(Biconditional(l, r), a) == Ok(true) <==> Evaluate(l, a) == Evaluate(r, a)
  {
  }

  /** A left side that decides `&`, `|` or `->` makes the right side irrelevant,
      even when the right side names a variable the assignment lacks. */
  lemma ShortCircuit(l: Expr, r: Expr, s: Expr, a: map<char, bool>)
    ensures Evaluate(l, a) == Ok(false) ==> Evaluate(And(l, r), a) == Evaluate(And(l, s), a) == Ok(false)
    ensures Evaluate(l, a) == Ok(true) ==> Evaluate(Or(l, r), a) == Evaluate(Or(l, s), a) == Ok(true)
    ensures Evaluate(l, a) == Ok(false) ==> Evaluate(Implies(l, r), a) == Evaluate(Implies(l, s), a) == Ok(true)
  {
    if Evaluate(l, a) == Ok(false) {
      assert Evaluate(And(l, r), a) == Ok(false) == Evaluate(And(l, s), a);
      assert Evaluate(Implies(l, r), a) == Ok(true) == Evaluate(Implies(l, s), a);
    } else if Evaluate(l, a) == Ok(true) {
      assert Evaluate(Or(l, r), a) == Ok(true) == Evaluate(Or(l, s), a);
    }
  }

  /** Two assignments that bind the variables of `e` alike. */
  ghost predicate AgreeOn(names: set<char>, a1: map<char, bool>, a2: map<char, bool>) {
    forall n :: n in names ==> (n in a1 <==> n in a2) && (n in a1 ==> a1[n] == a2[n])
  }

  /** The result depends only on how the assignment binds the formula's own
      variables; other keys make no difference. */
  lemma {:induction false} EvaluateLocal(e: Expr, a1: map<char, bool>, a2: map<char, bool>)
    requires AgreeOn(Vars(e), a1, a2)
    ensures Evaluate(e, a1) == Evaluate(e, a2)
  {
    match e
    case Var(n) =>
    case Not(x) => EvaluateLocal(x, a1, a2);
    case And(l, r) => EvaluateLocal(l, a1, a2); EvaluateLocal(r, a1, a2);
    case Or(l, r) => EvaluateLocal(l, a1, a2); EvaluateLocal(r, a1, a2);
    case Implies(l, r) => EvaluateLocal(l, a1, a2); EvaluateLocal(r, a1, a2);
    case Biconditional(l, r) => EvaluateLocal(l, a1, a2); EvaluateLocal(r, a1, a2);
  }

  /** Adds the names of the `Var` leaves of `e` to the names collected so far. */
  method Extract(e: Expr, names: set<char>) returns (out: set<char>)
    ensures out == names + Vars(e)
    decreases e
  {
    if e.Var? {
      out := names + {e.name};
    } else if e.Not? {
      out := Extract(e.operand, names);
    } else {
      var mid := Extract(e.left, names);
      out := Extract(e.right, mid);
    }
  }

  /** Strictly increasing, hence free of duplicates. */
  predicate Increasing(xs: seq<char>) {
    forall i, j :: 0 <= i < j < |xs| ==> xs[i] < xs[j]
  }

  lemma HasLeast(s: set<char>)
    requires s != {}
    ensures exists m :: m in s && forall x :: x in s ==> m <= x
    decreases |s|
  {
    var y :| y in s;
    if s != {y} {
      HasLeast(s - {y});
      var m :| m in s - {y} && forall x :: x in s - {y} ==> m <= x;
      var least := if y < m then y else m;
      forall x | x in s ensures least <= x {
        if x != y {
          assert x in s - {y};
        }
      }
    } else {
      assert forall x :: x in s ==> y <= x;
    }
  }

  /** The elements of `s` in ascending order. */
  function SortedChars(s: set<char>): (xs: seq<char>)
    ensures Increasing(xs)
    ensures forall c :: c in xs <==> c in s
    decreases |s|
  {
    if s == {} then []
    else
      HasLeast(s);
      var m :| m in s && forall x :: x in s ==> m <= x;
      [m] + SortedChars(s - {m})
  }

  /** Two increasing sequences with the same elements are the same sequence: the
      sorted list of a set is determined by the set. */
  lemma {:induction false} IncreasingUnique(xs: seq<char>, ys: seq<char>)
    requires Increasing(xs) && Increasing(ys)
    requires forall c :: c in xs <==> c in ys
    ensures xs == ys
    decreases |xs|
  {
    var members := set c | c in xs;
    IncreasingCard(xs, members);
    IncreasingCard(ys, members);
    if xs != [] {
      assert xs[0] in ys && ys[0] in xs;
      var k :| 0 <= k < |ys| && ys[k] == xs[0];
      var j :| 0 <= j < |xs| && xs[j] == ys[0];
      assert ys[0] <= ys[k] && xs[0] <= xs[j];
      forall c ensures c in xs[1..] <==> c in ys[1..] {
        if c in xs[1..] {
          assert c in ys && c != ys[0];
        }
        if c in ys[1..] {
          assert c in xs && c != xs[0];
        }
      }
      IncreasingUnique(xs[1..], ys[1..]);
      assert xs == [xs[0]] + xs[1..] && ys == [ys[0]] + ys[1..];
    }
  }

  /** The distinct variable names of `e`, sorted. */
  method GetVariables(e: Expr) returns (names: seq<char>)
    ensures Increasing(names)
    ensures forall c :: c in names <==> c in Vars(e)
    ensures |names| == |Vars(e)|
  {
    var found := Extract(e, {});
    names := SortedChars(found);
    IncreasingCard(names, Vars(e));
  }

  /** An increasing sequence has as many entries as it has distinct elements. */
  lemma {:induction false} IncreasingCard(xs: seq<char>, s: set<char>)
    requires Increasing(xs) && forall c :: c in xs <==> c in s
    ensures |xs| == |s|
    decreases |xs|
  {
    if xs != [] {
      var rest := s - {xs[0]};
      forall c ensures c in xs[1..] <==> c in rest {
        if c in xs[1..] {
          var k :| 1 <= k < |xs| && xs[k] == c;
          assert xs[0] < xs[k];
        }
        if c in rest {
          assert c in xs && c != xs[0];
        }
      }
      IncreasingCard(xs[1..], rest);
    } else {
      assert s == {};
    }
  }
}
