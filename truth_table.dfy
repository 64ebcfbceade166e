// The truth table of a formula: every assignment of its sorted variables, in
// descending binary order with the first variable most significant, each with
// the formula's value under it.

module TruthTable {
  import opened Results
  import opened Parsing
  import opened Evaluation

  function Pow2(n: nat): (p: nat)
    ensures p >= 1
  {
    if n == 0 then 1 else 2 * Pow2(n - 1)
  }

  /** The assignments for `vars[i..]` on top of `current`: first the ones with
      `vars[i]` true, then the ones with it false; at the end `current` itself.
      There are 2^(number of names left) of them. */
  function Assignments(vars: seq<char>, i: nat, current: map<char, bool>): (rows: seq<map<char, bool>>)
    requires i <= |vars|
    ensures |rows| == Pow2(|vars| - i)
    decreases |vars| - i
  {
    if i == |vars| then [current]
    else Assignments(vars, i + 1, current[vars[i] := true]) + Assignments(vars, i + 1, current[vars[i] := false])
  }

  /** `m1` and `m2` bind every name outside `vars[i..]` alike. */
  ghost predicate SameOutside(vars: seq<char>, i: nat, m1: map<char, bool>, m2: map<char, bool>)
    requires i <= |vars|
  {
    forall x :: x !in vars[i..] ==> (x in m1 <==> x in m2) && (x in m1 ==> m1[x] == m2[x])
  }

  /** Binds every name of `vars[i..]`. */
  ghost predicate Covers(vars: seq<char>, i: nat, m: map<char, bool>)
    requires i <= |vars|
  {
    forall j :: i <= j < |vars| ==> vars[j] in m
  }

  predicate Distinct(vars: seq<char>) {
    forall i, j :: 0 <= i < j < |vars| ==> vars[i] != vars[j]
  }

  /** The values `m` gives the names `vs`, in order (false for a name it lacks). */
  function ValuesOf(vs: seq<char>, m: map<char, bool>): seq<bool> {
    seq(|vs|, j requires 0 <= j < |vs| => if vs[j] in m then m[vs[j]] else false)
  }

  /** A row of truth values read as a binary number, first value most significant. */
  function BinaryValue(bs: seq<bool>): nat {
    if bs == [] then 0 else (if bs[0] then Pow2(|bs| - 1) else 0) + BinaryValue(bs[1..])
  }

  lemma SliceCons(vars: seq<char>, i: nat)
    requires i < |vars|
    ensures vars[i..] == [vars[i]] + vars[i + 1..]
  {
  }

  /** Every assignment binds all of `vars[i..]` and keeps `current` everywhere else. */
  lemma {:induction false} AssignmentsShape(vars: seq<char>, i: nat, current: map<char, bool>)
    requires i <= |vars|
    ensures forall k :: 0 <= k < |Assignments(vars, i, current)| ==>
      var row := Assignments(vars, i, current)[k];
      Covers(vars, i, row) && SameOutside(vars, i, row, current)
    decreases |vars| - i
  {
    if i < |vars| {
      var v := vars[i];
      var t := Assignments(vars, i + 1, current[v := true]);
      var f := Assignments(vars, i + 1, current[v := false]);
      AssignmentsShape(vars, i + 1, current[v := true]);
      AssignmentsShape(vars, i + 1, current[v := false]);
      SliceCons(vars, i);
      forall k | 0 <= k < |t + f|
        ensures Covers(vars, i, (t + f)[k]) && SameOutside(vars, i, (t + f)[k], current)
      {
        var row := (t + f)[k];
        var base := if k < |t| then current[v := true] else current[v := false];
        assert Covers(vars, i + 1, row) && SameOutside(vars, i + 1, row, base);
        assert v in row by {
          if v !in vars[i + 1..] {
            assert v in base;
          }
        }
      }
    }
  }

  /** The assignments depend on `current` only outside `vars[i..]`, which every one
      of them overwrites. */
  lemma {:induction false} AssignmentsOutside(vars: seq<char>, i: nat, m1: map<char, bool>, m2: map<char, bool>)
    requires i <= |vars| && SameOutside(vars, i, m1, m2)
    ensures Assignments(vars, i, m1) == Assignments(vars, i, m2)
    decreases |vars| - i
  {
    if i == |vars| {
      assert m1.Keys == m2.Keys;
      assert m1 == m2;
    } else {
      SliceCons(vars, i);
      AssignmentsOutside(vars, i + 1, m1[vars[i] := true], m2[vars[i] := true]);
      AssignmentsOutside(vars, i + 1, m1[vars[i] := false], m2[vars[i] := false]);
    }
  }

  lemma ValuesOfCons(vars: seq<char>, i: nat, m: map<char, bool>)
    requires i < |vars|
    ensures ValuesOf(vars[i..], m) == [ValuesOf(vars[i..], m)[0]] + ValuesOf(vars[i + 1..], m)
  {
    var whole := ValuesOf(vars[i..], m);
    assert whole[1..] == ValuesOf(vars[i + 1..], m);
  }

  /** With distinct names, the k-th assignment spells 2^m - 1 - k in binary over
      `vars[i..]`: all-true first, counting down to all-false. */
  lemma {:induction false} AssignmentsOrder(vars: seq<char>, i: nat, current: map<char, bool>)
    requires i <= |vars| && Distinct(vars)
    ensures forall k :: 0 <= k < |Assignments(vars, i, current)| ==>
      BinaryValue(ValuesOf(vars[i..], Assignments(vars, i, current)[k])) == Pow2(|vars| - i) - 1 - k
    decreases |vars| - i
  {
    if i < |vars| {
      var v := vars[i];
      var t := Assignments(vars, i + 1, current[v := true]);
      var f := Assignments(vars, i + 1, current[v := false]);
      var half := Pow2(|vars| - i - 1);
      AssignmentsOrder(vars, i + 1, current[v := true]);
      AssignmentsOrder(vars, i + 1, current[v := false]);
      AssignmentsShape(vars, i + 1, current[v := true]);
      AssignmentsShape(vars, i + 1, current[v := false]);
      assert v !in vars[i + 1..] by {
        forall j | i + 1 <= j < |vars| ensures vars[j] != v {}
      }
      forall k | 0 <= k < |t + f|
        ensures BinaryValue(ValuesOf(vars[i..], (t + f)[k])) == Pow2(|vars| - i) - 1 - k
      {
        var row := (t + f)[k];
        var rest := ValuesOf(vars[i + 1..], row);
        ValuesOfCons(vars, i, row);
        if k < half {
          assert row == t[k];
          assert SameOutside(vars, i + 1, row, current[v := true]);
          assert BinaryValue(rest) == half - 1 - k;
          assert ValuesOf(vars[i..], row) == [true] + rest;
        } else {
          assert row == f[k - half];
          assert SameOutside(vars, i + 1, row, current[v := false]);
          assert BinaryValue(rest) == half - 1 - (k - half);
          assert ValuesOf(vars[i..], row) == [false] + rest;
        }
      }
    }
  }

  lemma {:induction false} BinaryValueBound(bs: seq<bool>)
    ensures BinaryValue(bs) < Pow2(|bs|)
  {
    if bs != [] {
      BinaryValueBound(bs[1..]);
    }
  }

  /** The largest value is the all-true row and zero is the all-false row. */
  lemma {:induction false} BinaryValueExtremes(bs: seq<bool>)
    ensures BinaryValue(bs) == Pow2(|bs|) - 1 <==> forall j :: 0 <= j < |bs| ==> bs[j]
    ensures BinaryValue(bs) == 0 <==> forall j :: 0 <= j < |bs| ==> !bs[j]
  {
    if bs != [] {
      BinaryValueExtremes(bs[1..]);
      BinaryValueBound(bs[1..]);
      assert forall j :: 1 <= j < |bs| ==> bs[j] == bs[1..][j - 1];
    }
  }

  /** The whole table: the k-th assignment binds every name and spells
      2^n - 1 - k over all the names. */
  lemma TableShape(vars: seq<char>, current: map<char, bool>)
    requires Distinct(vars)
    ensures forall k :: 0 <= k < |Assignments(vars, 0, current)| ==>
      && Covers(vars, 0, Assignments(vars, 0, current)[k])
      && BinaryValue(ValuesOf(vars, Assignments(vars, 0, current)[k])) == Pow2(|vars|) - 1 - k
  {
    AssignmentsShape(vars, 0, current);
    AssignmentsOrder(vars, 0, current);
    assert vars[0..] == vars;
  }

  /** No assignment is listed twice. */
  lemma AssignmentsDistinct(vars: seq<char>, current: map<char, bool>)
    requires Distinct(vars)
    ensures forall k1, k2 :: 0 <= k1 < k2 < |Assignments(vars, 0, current)| ==>
      Assignments(vars, 0, current)[k1] != Assignments(vars, 0, current)[k2]
  {
    AssignmentsOrder(vars, 0, current);
  }

  /** The first assignment makes every name true and the last makes every name false. */
  lemma FirstAndLast(vars: seq<char>, current: map<char, bool>)
    requires Distinct(vars)
    ensures var rows := Assignments(vars, 0, current);
      forall j :: 0 <= j < |vars| ==> vars[j] in rows[0] && rows[0][vars[j]] && vars[j] in rows[|rows| - 1] && !rows[|rows| - 1][vars[j]]
  {
    var rows := Assignments(vars, 0, current);
    TableShape(vars, current);
    var last := |rows| - 1;
    assert Covers(vars, 0, rows[0]) && BinaryValue(ValuesOf(vars, rows[0])) == Pow2(|vars|) - 1;
    assert Covers(vars, 0, rows[last]) && BinaryValue(ValuesOf(vars, rows[last])) == 0;
    RowExtremes(vars, rows[0]);
    RowExtremes(vars, rows[last]);
  }

  /** A row that binds every name is all true when it spells the largest value,
      and all false when it spells zero. */
  lemma RowExtremes(vars: seq<char>, row: map<char, bool>)
    requires Covers(vars, 0, row)
    ensures BinaryValue(ValuesOf(vars, row)) == Pow2(|vars|) - 1 ==>
      forall j :: 0 <= j < |vars| ==> vars[j] in row && row[vars[j]]
    ensures BinaryValue(ValuesOf(vars, row)) == 0 ==>
      forall j :: 0 <= j < |vars| ==> vars[j] in row && !row[vars[j]]
  {
    var bs := ValuesOf(vars, row);
    BinaryValueExtremes(bs);
    assert forall j :: 0 <= j < |vars| ==> bs[j] == row[vars[j]];
  }

  /** A row that binds every name of the sorted variable list binds every
      variable of the formula. */
  lemma CoversVars(e: Expr, vars: seq<char>, row: map<char, bool>)
    requires Covers(vars, 0, row) && forall c :: c in vars <==> c in Vars(e)
    ensures Vars(e) <= row.Keys
  {
    forall c | c in Vars(e) ensures c in row {
      var j :| 0 <= j < |vars| && vars[j] == c;
    }
  }

  lemma IncreasingDistinct(vars: seq<char>)
    requires Increasing(vars)
    ensures Distinct(vars)
  {
  }

  /** " | ".join(items). */
  function Join(items: seq<string>, sep: string): string {
    if |items| == 0 then ""
    else if |items| == 1 then items[0]
    else items[0] + sep + Join(items[1..], sep)
  }

  /** Joining one-character items gives n items and n - 1 separators. */
  lemma {:induction false} JoinLength(items: seq<string>, sep: string)
    requires forall j :: 0 <= j < |items| ==> |items[j]| == 1
    ensures |Join(items, sep)| == if |items| == 0 then 0 else |items| + (|items| - 1) * |sep|
  {
    if |items| > 1 {
      JoinLength(items[1..], sep);
    }
  }

  /** One line of the table: the variables' values, then the formula's value. */
  datatype Row = Row(values: seq<bool>, result: bool)

  class TruthTableGenerator {
    const expr: Expr
    const formula: string
    const variables: seq<char>
    const numVariables: nat

    ghost predicate Valid() {
      && Increasing(variables)
      && (forall c :: c in variables <==> c in Vars(expr))
      && numVariables == |variables|
    }

    constructor(expr: Expr, formula: string)
      ensures this.expr == expr && this.formula == formula
      ensures Valid()
    {
      this.expr := expr;
      this.formula := formula;
      var names := GetVariables(expr);
      variables := names;
      numVariables := |names|;
    }

    /** The assignments for `variables[index..]` on top of `current`. Like the
        dictionary the recursion shares, `current` comes back with every one of
        `variables[index..]` set to false and the rest unchanged. */
    method GenerateAssignments(index: nat, current: map<char, bool>) returns (results: seq<map<char, bool>>, after: map<char, bool>)
      requires Valid() && index <= numVariables
      ensures results == Assignments(variables, index, current)
      ensures SameOutside(variables, index, after, current)
      ensures forall j :: index <= j < |variables| ==> variables[j] in after && !after[variables[j]]
      decreases numVariables - index
    {
      if index == numVariables {
        return [current], current;
      }
      var v := variables[index];
      SliceCons(variables, index);
      var shared := current[v := true];
      var first, afterFirst := GenerateAssignments(index + 1, shared);
      shared := afterFirst[v := false];
      var second, afterSecond := GenerateAssignments(index + 1, shared);
      AssignmentsOutside(variables, index + 1, shared, current[v := false]);
      results := first + second;
      after := afterSecond;
      IncreasingDistinct(variables);
      assert v !in variables[index + 1..] by {
        forall j | index + 1 <= j < |variables| ensures variables[j] != v {}
      }
    }

    /** `row` is the line of the table for `assignment`: the values it gives the
        sorted variables, and the formula's value under it, which the evaluator
        finds without a missing variable. */
    ghost predicate RowOf(row: Row, assignment: map<char, bool>) {
      && Vars(expr) <= assignment.Keys
      && row.values == ValuesOf(variables, assignment)
      && Evaluate(expr, assignment) == Ok(row.result)
      && row.result == Truth(expr, assignment)
    }

    /** One line of the table for one generated assignment: the values of the
        sorted variables, and the formula's value, which the evaluator always
        finds since the assignment binds every variable. */
    method RowFor(assignment: map<char, bool>) returns (row: Row)
      requires Valid() && Covers(variables, 0, assignment)
      ensures RowOf(row, assignment)
    {
      CoversVars(expr, variables, assignment);
      var values := ValuesOf(variables, assignment);
      var result := Evaluate(expr, assignment).value;
      row := Row(values, result);
    }

    /** The table's rows, one per assignment and in the same order. */
    method GenerateRows() returns (rows: seq<Row>)
      requires Valid()
      ensures |rows| == Pow2(numVariables)
      ensures forall k :: 0 <= k < |rows| ==> RowOf(rows[k], Assignments(variables, 0, map[])[k])
      ensures forall k :: 0 <= k < |rows| ==>
        |rows[k].values| == numVariables && BinaryValue(rows[k].values) == Pow2(numVariables) - 1 - k
    {
      var assignments, _ := GenerateAssignments(0, map[]);
      IncreasingDistinct(variables);
      TableShape(variables, map[]);
      rows := [];
      for i := 0 to |assignments|
        invariant |rows| == i
        invariant forall k :: 0 <= k < i ==> RowOf(rows[k], assignments[k])
      {
        var row := RowFor(assignments[i]);
        rows := rows + [row];
      }
    }

    /** The variable names joined by " | ". */
    function VarHeaders(): string {
      Join(seq(|variables|, j requires 0 <= j < |variables| => [variables[j]]), " | ")
    }

    /** The header line: the variable names, then the formula. */
    function HeaderLine(): string {
      VarHeaders() + " | " + formula
    }

    /** The length of the dashed line under the header, computed from its parts;
        it is the header line's length. */
    function SeparatorLength(): (n: nat)
      ensures n == |HeaderLine()|
      ensures n == (if numVariables == 0 then 3 else 4 * numVariables) + |formula|
      requires Valid()
    {
      JoinLength(seq(|variables|, j requires 0 <= j < |variables| => [variables[j]]), " | ");
      |VarHeaders()| + 3 + |formula|
    }
  }
}
