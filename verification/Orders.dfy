/** Options and results, and the orders every sorted structure of the server relies on. */
module Orders {

  datatype Option<+T> = None | Some(value: T)

  datatype Result<+T, +E> = Ok(value: T) | Err(error: E) {
    predicate IsFailure() {
      Err?
    }

    function PropagateFailure<U>(): Result<U, E>
      requires Err?
    {
      Err(error)
    }

    function Extract(): T
      requires Ok?
    {
      value
    }
  }

  // ---------------------------------------------------------------------------
  // Rust's `str` order. Code points order strings exactly as their UTF-8 bytes do.
  // ---------------------------------------------------------------------------

  predicate StrLess(a: string, b: string) {
    b != "" && (a == "" || a[0] < b[0] || (a[0] == b[0] && StrLess(a[1..], b[1..])))
  }

  /** The first difference decides, and a proper prefix comes first. */
  lemma {:induction false} StrLessIs(a: string, b: string)
    ensures StrLess(a, b) <==> exists k :: DiffersAt(a, b, k)
  {
    if a == "" || b == "" || a[0] != b[0] {
      assert a == "" && b != "" ==> DiffersAt(a, b, 0);
      assert a != "" && b != "" && a[0] < b[0] ==> DiffersAt(a, b, 0);
    } else {
      StrLessIs(a[1..], b[1..]);
      if StrLess(a[1..], b[1..]) {
        var k: nat :| DiffersAt(a[1..], b[1..], k);
        assert a[..k + 1] == [a[0]] + a[1..][..k] && b[..k + 1] == [b[0]] + b[1..][..k];
        assert DiffersAt(a, b, k + 1);
      }
      if k: nat :| DiffersAt(a, b, k) {
        assert k > 0;
        assert a[1..][..k - 1] == a[..k][1..] && b[1..][..k - 1] == b[..k][1..];
        assert DiffersAt(a[1..], b[1..], k - 1);
      }
    }
  }

  ghost predicate DiffersAt(a: string, b: string, k: nat) {
    k <= |a| && k < |b| && a[..k] == b[..k] && (k == |a| || a[k] < b[k])
  }

  lemma {:induction false} StrLessTransitive(a: string, b: string, c: string)
    requires StrLess(a, b) && StrLess(b, c)
    ensures StrLess(a, c)
  {
    if a != "" && a[0] == b[0] && b[0] == c[0] {
      StrLessTransitive(a[1..], b[1..], c[1..]);
    }
  }

  lemma {:induction false} StrLessTotal(a: string, b: string)
    ensures StrLess(a, b) || StrLess(b, a) || a == b
    ensures !(StrLess(a, b) && StrLess(b, a))
    ensures !StrLess(a, a)
  {
    if a != "" {
      StrLessTotal(a[1..], a[1..]);
    }
    if a != "" && b != "" && a[0] == b[0] {
      assert a == [a[0]] + a[1..] && b == [b[0]] + b[1..];
      StrLessTotal(a[1..], b[1..]);
    }
  }

  lemma StrLessIsStrictTotal()
    ensures StrictTotal(StrLess)
  {
    forall a, b, c: string | StrLess(a, b) && StrLess(b, c) ensures StrLess(a, c) {
      StrLessTransitive(a, b, c);
    }
    forall a, b: string
      ensures (StrLess(a, b) || StrLess(b, a) || a == b) && !(StrLess(a, b) && StrLess(b, a)) && !StrLess(a, a)
    {
      StrLessTotal(a, b);
    }
  }

  // ---------------------------------------------------------------------------
  // Sort keys: two integers, then a string. Every comparator the resolver uses has
  // this shape.
  // ---------------------------------------------------------------------------

  datatype SortKey = SortKey(first: int, second: int, third: string)

  predicate KeyLess(a: SortKey, b: SortKey) {
    a.first < b.first
    || (a.first == b.first && (a.second < b.second || (a.second == b.second && StrLess(a.third, b.third))))
  }

  // ---------------------------------------------------------------------------
  // Least elements and the ascending listing of a finite set.
  // ---------------------------------------------------------------------------

  ghost predicate StrictTotal<T(!new)>(less: (T, T) -> bool) {
    && (forall a, b, c :: less(a, b) && less(b, c) ==> less(a, c))
    && (forall a, b :: less(a, b) || less(b, a) || a == b)
    && (forall a, b :: !(less(a, b) && less(b, a)))
  }

  predicate IsLeast<T>(less: (T, T) -> bool, m: T, s: set<T>) {
    m in s && forall x | x in s && x != m :: less(m, x)
  }

  lemma {:induction false} LeastExists<T(!new)>(less: (T, T) -> bool, s: set<T>)
    requires StrictTotal(less) && s != {}
    ensures exists m :: IsLeast(less, m, s)
  {
    var x :| x in s;
    if s == {x} {
      assert IsLeast(less, x, s);
    } else {
      LeastExists(less, s - {x});
      var m :| IsLeast(less, m, s - {x});
      if less(x, m) {
        assert IsLeast(less, x, s);
      } else {
        assert IsLeast(less, m, s);
      }
    }
  }

  function Least<T(!new)>(less: (T, T) -> bool, s: set<T>): (m: T)
    requires StrictTotal(less) && s != {}
    ensures IsLeast(less, m, s)
  {
    LeastExists(less, s);
    var m :| IsLeast(less, m, s);
    m
  }

  /** The elements of `s` in ascending order: what iterating a BTreeSet yields. */
  function Ascending<T(!new)>(less: (T, T) -> bool, s: set<T>): (r: seq<T>)
    requires StrictTotal(less)
    ensures |r| == |s|
  {
    if s == {} then []
    else
      var m := Least(less, s);
      [m] + Ascending(less, s - {m})
  }

  ghost predicate IsAscending<T(!new)>(less: (T, T) -> bool, r: seq<T>) {
    forall i, j | 0 <= i < j < |r| :: less(r[i], r[j])
  }

  lemma {:induction false} AscendingIsSorted<T(!new)>(less: (T, T) -> bool, s: set<T>)
    requires StrictTotal(less)
    ensures IsAscending(less, Ascending(less, s))
    ensures forall x :: x in Ascending(less, s) <==> x in s
  {
    if s != {} {
      var m := Least(less, s);
      AscendingIsSorted(less, s - {m});
      var rest := Ascending(less, s - {m});
      forall x ensures x in [m] + rest <==> x in s {
      }
      forall i, j | 0 <= i < j < |[m] + rest| ensures less(([m] + rest)[i], ([m] + rest)[j]) {
        if i == 0 { assert rest[j - 1] in rest; }
      }
    }
  }

  /** A listing in ascending order is fixed by its set of elements. */
  lemma {:induction false} AscendingIsUnique<T(!new)>(less: (T, T) -> bool, s: set<T>, r: seq<T>)
    requires StrictTotal(less)
    requires IsAscending(less, r)
    requires forall x :: x in r <==> x in s
    ensures r == Ascending(less, s)
  {
    if r == [] {
      assert s == {};
    } else {
      var first := r[0];
      assert first in s;
      var m := Least(less, s);
      assert m in r;
      var i :| 0 <= i < |r| && r[i] == m;
      assert i == 0 || less(first, m);
      assert first == m;
      forall x ensures x in r[1..] <==> x in s - {m} {
        if x in r[1..] {
          var j :| 0 <= j < |r[1..]| && r[1..][j] == x;
          assert less(r[0], r[j + 1]);
        }
      }
      AscendingIsUnique(less, s - {m}, r[1..]);
    }
  }

  // ---------------------------------------------------------------------------
  // `sort_by` on a list. Insertion keeps equal elements apart, so on a list without
  // repetition the result is the ascending listing of its set.
  // ---------------------------------------------------------------------------

  function Insert<T>(less: (T, T) -> bool, x: T, sorted: seq<T>): seq<T> {
    if sorted == [] || !less(sorted[0], x) then [x] + sorted
    else [sorted[0]] + Insert(less, x, sorted[1..])
  }

  function SortBy<T>(less: (T, T) -> bool, xs: seq<T>): seq<T> {
    if xs == [] then [] else Insert(less, xs[0], SortBy(less, xs[1..]))
  }

  ghost predicate NoRepeats<T>(xs: seq<T>) {
    forall i, j | 0 <= i < j < |xs| :: xs[i] != xs[j]
  }

  function Elements<T(==)>(xs: seq<T>): set<T> {
    set x | x in xs
  }

  lemma {:induction false} InsertSorts<T(!new)>(less: (T, T) -> bool, x: T, sorted: seq<T>)
    requires StrictTotal(less) && IsAscending(less, sorted) && x !in sorted
    ensures IsAscending(less, Insert(less, x, sorted))
    ensures forall y :: y in Insert(less, x, sorted) <==> y == x || y in sorted
  {
    if sorted == [] {
    } else if !less(sorted[0], x) {
      assert less(x, sorted[0]);
      forall i, j | 0 <= i < j < |[x] + sorted| ensures less(([x] + sorted)[i], ([x] + sorted)[j]) {
        if i == 0 && j > 1 { assert less(sorted[0], sorted[j - 1]); }
      }
    } else {
      InsertSorts(less, x, sorted[1..]);
      var rest := Insert(less, x, sorted[1..]);
      var r := [sorted[0]] + rest;
      forall i, j | 0 <= i < j < |r| ensures less(r[i], r[j]) {
        if i == 0 {
          assert rest[j - 1] in rest;
          if rest[j - 1] in sorted[1..] {
            var k :| 0 <= k < |sorted[1..]| && sorted[1..][k] == rest[j - 1];
            assert less(sorted[0], sorted[k + 1]);
          }
        }
      }
    }
  }

  lemma {:induction false} SortByListsTheSet<T(!new)>(less: (T, T) -> bool, xs: seq<T>)
    requires StrictTotal(less) && NoRepeats(xs)
    ensures SortBy(less, xs) == Ascending(less, Elements(xs))
  {
    SortBySorts(less, xs);
    AscendingIsUnique(less, Elements(xs), SortBy(less, xs));
  }

  lemma {:induction false} SortBySorts<T(!new)>(less: (T, T) -> bool, xs: seq<T>)
    requires StrictTotal(less) && NoRepeats(xs)
    ensures IsAscending(less, SortBy(less, xs))
    ensures forall y :: y in SortBy(less, xs) <==> y in xs
  {
    if xs != [] {
      SortBySorts(less, xs[1..]);
      assert xs[0] !in xs[1..];
      InsertSorts(less, xs[0], SortBy(less, xs[1..]));
    }
  }
}
