/** Sums of an integer function over a finite set. */
module Sums {
  ghost function Sum<T(!new)>(s: set<T>, f: T -> int): int {
    if s == {} then 0 else var x :| x in s; f(x) + Sum(s - {x}, f)
  }

  lemma {:induction false} SumPick<T(!new)>(s: set<T>, f: T -> int, x: T)
    requires x in s
    ensures Sum(s, f) == f(x) + Sum(s - {x}, f)
    decreases |s|
  {
    var y :| y in s && Sum(s, f) == f(y) + Sum(s - {y}, f);
    if y != x {
      SumPick(s - {y}, f, x);
      SumPick(s - {x}, f, y);
      assert s - {y} - {x} == s - {x} - {y};
    }
  }

  lemma {:induction false} SumSame<T(!new)>(s: set<T>, f: T -> int, g: T -> int)
    requires forall x :: x in s ==> f(x) == g(x)
    ensures Sum(s, f) == Sum(s, g)
    decreases |s|
  {
    if s != {} {
      var x :| x in s;
      SumPick(s, f, x);
      SumPick(s, g, x);
      SumSame(s - {x}, f, g);
    }
  }

  lemma {:induction false} SumZero<T(!new)>(s: set<T>, f: T -> int)
    requires forall x :: x in s ==> f(x) == 0
    ensures Sum(s, f) == 0
    decreases |s|
  {
    if s != {} {
      var x :| x in s;
      SumPick(s, f, x);
      SumZero(s - {x}, f);
    }
  }

  /** Elements outside `s` that contribute nothing may be added to the set. */
  lemma {:induction false} SumWiden<T(!new)>(s: set<T>, u: set<T>, f: T -> int)
    requires s <= u && forall x :: x in u - s ==> f(x) == 0
    ensures Sum(s, f) == Sum(u, f)
    decreases |s|
  {
    if s == {} {
      SumZero(u, f);
    } else {
      var x :| x in s;
      SumPick(s, f, x);
      SumPick(u, f, x);
      SumWiden(s - {x}, u - {x}, f);
    }
  }

  lemma {:induction false} SumAdd<T(!new)>(s: set<T>, f: T -> int, g: T -> int, h: T -> int)
    requires forall x :: x in s ==> h(x) == f(x) + g(x)
    ensures Sum(s, h) == Sum(s, f) + Sum(s, g)
    decreases |s|
  {
    if s != {} {
      var x :| x in s;
      SumPick(s, f, x);
      SumPick(s, g, x);
      SumPick(s, h, x);
      SumAdd(s - {x}, f, g, h);
    }
  }

  /** Summing a table by rows or by columns gives the same total. */
  lemma SumTwo<T(!new)>(s: set<T>, f: T -> int, a: T, b: T)
    requires a in s && b in s && forall c :: c in s && c != a && c != b ==> f(c) == 0
    ensures Sum(s, f) == if a == b then f(a) else f(a) + f(b)
  {
    SumPick(s, f, a);
    if a == b {
      SumZero(s - {a}, f);
    } else {
      SumPick(s - {a}, f, b);
      SumZero(s - {a} - {b}, f);
    }
  }

  lemma {:induction false} SumSwap<A(!new), B(!new)>(s: set<A>, t: set<B>, row: A -> B -> int, column: B -> A -> int, rows: A -> int, columns: B -> int)
    requires forall a, b :: a in s && b in t ==> row(a)(b) == column(b)(a)
    requires forall a :: a in s ==> rows(a) == Sum(t, row(a))
    requires forall b :: b in t ==> columns(b) == Sum(s, column(b))
    ensures Sum(s, rows) == Sum(t, columns)
    decreases |s|
  {
    if s == {} {
      SumZero(t, columns);
    } else {
      var x :| x in s;
      var rest := b => Sum(s - {x}, column(b));
      SumPick(s, rows, x);
      SumSwap(s - {x}, t, row, column, rows, rest);
      forall b | b in t
        ensures columns(b) == row(x)(b) + rest(b)
      {
        SumPick(s, column(b), x);
      }
      SumAdd(t, row(x), rest, columns);
    }
  }

  lemma {:induction false} SubsetSize<T(!new)>(a: set<T>, b: set<T>)
    requires a <= b
    ensures |a| <= |b|
  {
    if a != {} {
      var x :| x in a;
      SubsetSize(a - {x}, b - {x});
    }
  }
}
