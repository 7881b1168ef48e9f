/** Small vocabulary shared by every component: options, instants and sums over tables. */
module Common {

  datatype Option<+T> = None | Some(value: T)

  /** An instant, in whole seconds since the Unix epoch.  A calendar date is the instant of its UTC midnight. */
  type Time = int

  function Lesser(x: int, y: int): int {
    if y < x then y else x
  }

  ghost predicate Ascending(s: seq<int>) {
    forall i, j :: 0 <= i < j < |s| ==> s[i] < s[j]
  }

  ghost function AnyOf<T>(s: set<T>): (x: T)
    requires s != {}
    ensures x in s
  {
    var x :| x in s;
    x
  }

  lemma {:induction false} ExtremesExist(s: set<int>)
    requires s != {}
    ensures exists m :: m in s && forall x :: x in s ==> x <= m
    ensures exists m :: m in s && forall x :: x in s ==> m <= x
  {
    var y := AnyOf(s);
    if s != {y} {
      var rest := s - {y};
      assert rest != {} by {
        assert s == rest + {y};
      }
      ExtremesExist(rest);
      var hi :| hi in rest && forall x :: x in rest ==> x <= hi;
      var lo :| lo in rest && forall x :: x in rest ==> lo <= x;
      var hi' := if hi < y then y else hi;
      var lo' := if y < lo then y else lo;
      assert hi' in s && forall x :: x in s ==> x <= hi';
      assert lo' in s && forall x :: x in s ==> lo' <= x;
    } else {
      assert forall x :: x in s ==> x <= y <= x;
    }
  }

  function MaxOf(s: set<int>): (m: int)
    requires s != {}
    ensures m in s && forall x :: x in s ==> x <= m
  {
    ExtremesExist(s);
    var m :| m in s && forall x :: x in s ==> x <= m;
    m
  }

  function MinOf(s: set<int>): (m: int)
    requires s != {}
    ensures m in s && forall x :: x in s ==> m <= x
  {
    ExtremesExist(s);
    var m :| m in s && forall x :: x in s ==> m <= x;
    m
  }

  /** The sum of one integer column of a table. */
  ghost function SumInt<T(!new)>(rows: seq<T>, f: T -> int): int {
    if rows == [] then 0 else SumInt(rows[..|rows| - 1], f) + f(rows[|rows| - 1])
  }

  /** The sum of one money column of a table. */
  ghost function SumReal<T(!new)>(rows: seq<T>, f: T -> real): real {
    if rows == [] then 0.0 else SumReal(rows[..|rows| - 1], f) + f(rows[|rows| - 1])
  }

  lemma {:induction false} SumIntUpdate<T(!new)>(rows: seq<T>, i: nat, row: T, f: T -> int)
    requires i < |rows|
    ensures SumInt(rows[i := row], f) == SumInt(rows, f) - f(rows[i]) + f(row)
  {
    var n := |rows| - 1;
    if i == n {
      assert rows[i := row][..n] == rows[..n];
    } else {
      assert rows[i := row][..n] == rows[..n][i := row];
      SumIntUpdate(rows[..n], i, row, f);
    }
  }

  lemma {:induction false} SumRealUpdate<T(!new)>(rows: seq<T>, i: nat, row: T, f: T -> real)
    requires i < |rows|
    ensures SumReal(rows[i := row], f) == SumReal(rows, f) - f(rows[i]) + f(row)
  {
    var n := |rows| - 1;
    if i == n {
      assert rows[i := row][..n] == rows[..n];
    } else {
      assert rows[i := row][..n] == rows[..n][i := row];
      SumRealUpdate(rows[..n], i, row, f);
    }
  }

  lemma SumAppend<T(!new)>(rows: seq<T>, row: T, f: T -> int, g: T -> real)
    ensures SumInt(rows + [row], f) == SumInt(rows, f) + f(row)
    ensures SumReal(rows + [row], g) == SumReal(rows, g) + g(row)
  {
    assert (rows + [row])[..|rows|] == rows;
  }
}
