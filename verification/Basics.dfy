/** Optional values, ordered enumeration of finite sets, and filtered sequences. */
module Basics {

  datatype Option<+T> = None | Some(value: T) {
    function GetOr(default: T): T {
      if Some? then value else default
    }
  }

  // ------------------------------------------------- ordered enumeration

  ghost predicate TotalOrder<T(!new)>(leq: (T, T) -> bool) {
    && (forall x, y :: leq(x, y) || leq(y, x))
    && (forall x, y :: leq(x, y) && leq(y, x) ==> x == y)
    && (forall x, y, z :: leq(x, y) && leq(y, z) ==> leq(x, z))
  }

  ghost predicate IsLeast<T>(k: T, s: set<T>, leq: (T, T) -> bool) {
    k in s && forall j :: j in s ==> leq(k, j)
  }

  lemma {:induction false} LeastExists<T(!new)>(s: set<T>, leq: (T, T) -> bool)
    requires TotalOrder(leq) && s != {}
    ensures exists k :: IsLeast(k, s, leq)
    decreases |s|
  {
    var k :| k in s;
    var rest := s - {k};
    assert forall j :: j in s ==> j == k || j in rest;
    if rest == {} {
      assert IsLeast(k, s, leq);
    } else {
      LeastExists(rest, leq);
      var m :| IsLeast(m, rest, leq);
      assert IsLeast(if leq(k, m) then k else m, s, leq);
    }
  }

  /** The first element of a nonempty set in the given order. */
  function Least<T(!new)>(s: set<T>, leq: (T, T) -> bool): (k: T)
    requires TotalOrder(leq) && s != {}
    ensures k in s
    ensures forall j :: j in s ==> leq(k, j)
  {
    LeastExists(s, leq);
    assert exists k :: k in s && forall j | j in s :: leq(k, j) by {
      var k :| IsLeast(k, s, leq);
    }
    var k :| k in s && forall j | j in s :: leq(k, j);
    k
  }

  ghost predicate Ascending<T>(q: seq<T>, leq: (T, T) -> bool) {
    forall i, j :: 0 <= i < j < |q| ==> leq(q[i], q[j]) && q[i] != q[j]
  }

  /** The elements of a set in ascending order: how a B-tree table is scanned. */
  function Scan<T(!new)>(s: set<T>, leq: (T, T) -> bool): (q: seq<T>)
    requires TotalOrder(leq)
    ensures Ascending(q, leq)
    ensures forall x :: x in q <==> x in s
    ensures |q| == |s|
  {
    if s == {} then []
    else
      var k := Least(s, leq);
      var rest := Scan(s - {k}, leq);
      assert forall x :: x in s ==> x == k || x in rest;
      [k] + rest
  }

  // --------------------------------------------------- order on strings

  /** Code point order, in which tables keyed by `&str` are kept. */
  predicate LeqString(a: string, b: string) {
    |a| == 0 || (|b| > 0 && (a[0] < b[0] || (a[0] == b[0] && LeqString(a[1..], b[1..]))))
  }

  lemma {:induction false} LeqStringTotal(a: string, b: string)
    ensures LeqString(a, b) || LeqString(b, a)
    ensures LeqString(a, b) && LeqString(b, a) ==> a == b
  {
    if |a| > 0 && |b| > 0 && a[0] == b[0] {
      LeqStringTotal(a[1..], b[1..]);
      if LeqString(a, b) && LeqString(b, a) {
        assert a == [a[0]] + a[1..] && b == [b[0]] + b[1..];
      }
    }
  }

  lemma {:induction false} LeqStringTransitive(a: string, b: string, c: string)
    requires LeqString(a, b) && LeqString(b, c)
    ensures LeqString(a, c)
  {
    if |a| > 0 && a[0] == b[0] && b[0] == c[0] {
      LeqStringTransitive(a[1..], b[1..], c[1..]);
    }
  }

  /** Dictionary order: the strings agree up to some place, where the first one
      ends or has the smaller character. */
  ghost predicate SplitsAt(a: string, b: string, n: nat) {
    n <= |a| && n <= |b| && a[..n] == b[..n] && (n == |a| || (n < |b| && a[n] < b[n]))
  }

  lemma {:induction false} LeqStringIsDictionary(a: string, b: string)
    ensures LeqString(a, b) <==> exists n :: SplitsAt(a, b, n)
  {
    if |a| == 0 || |b| == 0 || a[0] != b[0] {
      assert LeqString(a, b) ==> SplitsAt(a, b, 0);
      forall n: nat | SplitsAt(a, b, n) ensures n == 0 {
      }
    } else {
      LeqStringIsDictionary(a[1..], b[1..]);
      forall n: nat | SplitsAt(a[1..], b[1..], n) ensures SplitsAt(a, b, n + 1) {
        assert a[..n + 1] == [a[0]] + a[1..][..n] && b[..n + 1] == [b[0]] + b[1..][..n];
      }
      forall n: nat | SplitsAt(a, b, n) ensures n > 0 && SplitsAt(a[1..], b[1..], n - 1) {
        assert a[1..][..n - 1] == a[..n][1..] && b[1..][..n - 1] == b[..n][1..];
      }
    }
  }

  lemma LeqStringIsTotalOrder()
    ensures TotalOrder(LeqString)
  {
    forall x, y ensures (LeqString(x, y) || LeqString(y, x)) && (LeqString(x, y) && LeqString(y, x) ==> x == y) {
      LeqStringTotal(x, y);
    }
    forall x, y, z | LeqString(x, y) && LeqString(y, z) ensures LeqString(x, z) {
      LeqStringTransitive(x, y, z);
    }
  }

  /** Keys of a string-keyed table in scan order. */
  function ScanKeys(s: set<string>): (q: seq<string>)
    ensures Ascending(q, LeqString)
    ensures forall x :: x in q <==> x in s
    ensures |q| == |s|
  {
    LeqStringIsTotalOrder();
    Scan(s, LeqString)
  }

  /** The key a scan meets first, if any. */
  function FirstKey(s: set<string>): (k: Option<string>)
    ensures k.None? <==> s == {}
    ensures k.Some? ==> k.value in s && forall j :: j in s ==> LeqString(k.value, j)
  {
    LeqStringIsTotalOrder();
    if s == {} then None else Some(Least(s, LeqString))
  }

  lemma FirstIsLeast(q: seq<string>, s: set<string>)
    requires TotalOrder(LeqString) && q != []
    requires Ascending(q, LeqString) && forall x :: x in q <==> x in s
    ensures s != {} && Least(s, LeqString) == q[0]
  {
    hide LeqString;
    assert q[0] in q && q[0] in s;
    var k := Least(s, LeqString);
    var j :| 0 <= j < |q| && q[j] == k;
  }

  lemma TailIsRest(q: seq<string>, s: set<string>)
    requires q != [] && Ascending(q, LeqString) && forall x :: x in q <==> x in s
    ensures Ascending(q[1..], LeqString) && forall x :: x in q[1..] <==> x in s - {q[0]}
  {
    hide LeqString;
    assert q == [q[0]] + q[1..];
    assert forall j :: 0 < j < |q| ==> q[j] != q[0];
  }

  /** A set has one ascending enumeration. */
  lemma {:induction false} AscendingIsScan(q: seq<string>, s: set<string>)
    requires Ascending(q, LeqString) && forall x :: x in q <==> x in s
    ensures q == ScanKeys(s)
    decreases |q|
  {
    LeqStringIsTotalOrder();
    hide LeqString;
    if q == [] {
      assert s == {};
    } else {
      FirstIsLeast(q, s);
      TailIsRest(q, s);
      AscendingIsScan(q[1..], s - {q[0]});
    }
  }

  lemma EmptyIsAscending()
    ensures Ascending<string>([], LeqString)
  {
  }

  lemma NextIsAscending(found: seq<string>, rows: seq<string>, i: nat)
    requires i < |rows| && Ascending(found, LeqString) && Ascending(rows, LeqString)
    requires forall x :: x in found ==> x in rows[..i]
    ensures Ascending(found + [rows[i]], LeqString)
  {
    hide LeqString;
    forall j | 0 <= j < |found| ensures LeqString(found[j], rows[i]) && found[j] != rows[i] {
      assert found[j] in rows[..i];
      var m :| 0 <= m < i && rows[m] == found[j];
    }
  }

  lemma FirstInScan(rows: seq<string>, s: set<string>, i: nat)
    requires i < |rows| && Ascending(rows, LeqString) && rows[i] in s
    requires forall x :: x in s ==> x in rows && x !in rows[..i]
    ensures FirstKey(s) == Some(rows[i])
  {
    LeqStringIsTotalOrder();
    hide LeqString;
    var k := FirstKey(s).value;
    var j :| 0 <= j < |rows| && rows[j] == k;
    assert k !in rows[..i];
  }

  /** Rows that satisfy a test, in scan order: `txn_list(..).filter(..)`. */
  method Select<V>(table: map<string, V>, test: V -> bool, ghost matches: set<string>)
    returns (found: seq<string>)
    requires forall k :: k in matches <==> k in table && test(table[k])
    ensures found == ScanKeys(matches)
  {
    hide LeqString, Ascending, ScanKeys;
    var rows := ScanKeys(table.Keys);
    found := [];
    assert Ascending(found, LeqString) by { EmptyIsAscending(); }
    for i := 0 to |rows|
      invariant forall x :: x in found <==> x in rows[..i] && test(table[x])
      invariant Ascending(found, LeqString)
    {
      assert rows[..i + 1] == rows[..i] + [rows[i]];
      if test(table[rows[i]]) {
        NextIsAscending(found, rows, i);
        found := found + [rows[i]];
      }
    }
    assert rows[..|rows|] == rows;
    AscendingIsScan(found, matches);
  }

  /** The first row that satisfies a test: a scan that stops at a match. */
  method Find<V>(table: map<string, V>, test: V -> bool, ghost matches: set<string>)
    returns (found: Option<string>)
    requires forall k :: k in matches <==> k in table && test(table[k])
    ensures found == FirstKey(matches)
  {
    hide LeqString, Ascending, ScanKeys, FirstKey;
    var rows := ScanKeys(table.Keys);
    found := None;
    for i := 0 to |rows|
      invariant forall x :: x in rows[..i] ==> !test(table[x])
      invariant found.None?
    {
      if test(table[rows[i]]) {
        FirstInScan(rows, matches, i);
        return Some(rows[i]);
      }
      assert rows[..i + 1] == rows[..i] + [rows[i]];
    }
    assert rows[..|rows|] == rows;
    assert matches == {};
  }

  // -------------------------------------------------- filtered sequences

  predicate Distinct(q: seq<string>) {
    forall i, j :: 0 <= i < j < |q| ==> q[i] != q[j]
  }

  /** `Vec::retain(|x| x != out)`. */
  function Without(q: seq<string>, out: string): (r: seq<string>)
    ensures forall x :: x in r <==> x in q && x != out
    ensures |r| <= |q|
    ensures |r| == |q| <==> out !in q
    ensures out !in q ==> r == q
    ensures Distinct(q) ==> Distinct(r)
  {
    if q == [] then []
    else
      var rest := Without(q[1..], out);
      assert q == [q[0]] + q[1..];
      if q[0] == out then rest
      else
        assert Distinct(q) ==> q[0] !in rest;
        [q[0]] + rest
  }

  lemma WithoutHead(x: string, rest: seq<string>, out: string)
    ensures Without([x] + rest, out) == (if x == out then [] else [x]) + Without(rest, out)
  {
    assert ([x] + rest)[1..] == rest;
    hide Distinct;
  }

  /** What stays keeps its order. */
  lemma {:induction false} WithoutSplits(a: seq<string>, out: string, b: seq<string>)
    requires out !in a
    ensures Without(a + [out] + b, out) == a + Without(b, out)
    decreases |a|
  {
    hide Without, Distinct;
    if a == [] {
      assert a + [out] + b == [out] + b;
      WithoutHead(out, b, out);
    } else {
      WithoutSplits(a[1..], out, b);
      assert a + [out] + b == [a[0]] + (a[1..] + [out] + b);
      WithoutHead(a[0], a[1..] + [out] + b, out);
      assert a[0] in a && a == [a[0]] + a[1..];
    }
  }

  // ------------------------------------------------------------------ folds

  function Fold<V, E>(f: (V, E) -> V, v: V, es: seq<E>): V
    decreases |es|
  {
    if es == [] then v else Fold(f, f(v, es[0]), es[1..])
  }

  lemma {:induction false} FoldAppend<V, E>(f: (V, E) -> V, v: V, a: seq<E>, b: seq<E>)
    ensures Fold(f, v, a + b) == Fold(f, Fold(f, v, a), b)
    decreases |a|
  {
    if a == [] {
      assert a + b == b;
    } else {
      FoldAppend(f, f(v, a[0]), a[1..], b);
      assert (a + b)[1..] == a[1..] + b;
    }
  }

  lemma FoldTwo<V, E>(f: (V, E) -> V, v: V, d: E, e: E)
    ensures Fold(f, v, [d]) == f(v, d)
    ensures Fold(f, v, [d, e]) == f(f(v, d), e)
  {
    assert [d, e][1..] == [e] && [e][1..] == [];
    assert Fold(f, f(v, d), [e]) == f(f(v, d), e);
  }

  // --------------------------------------------------------------- counters

  /** `u32::saturating_sub(1)`. */
  function Decrement(n: nat): nat {
    if n == 0 then 0 else n - 1
  }

  lemma SubsetSize<T>(a: set<T>, b: set<T>)
    requires a <= b
    ensures |a| <= |b|
  {
    assert b == a + (b - a);
  }
}
