/** Shared vocabulary: names, optional values, results, and finite sums over maps. */
module Prelude {

  /**
   An identifier. The source uses strings and only ever compares them for equality
   (and, for some, with the empty string), so a name is a number standing for its string.
   */
  type Name = int

  /** The name that is the empty string. */
  const EMPTY_NAME: Name := 0

  type Bytes = seq<bv8>

  datatype Option<+T> = None | Some(value: T)

  datatype Result<+T, +E> = Ok(value: T) | Err(error: E)

  function Max(a: nat, b: nat): (m: nat)
    ensures m >= a && m >= b && (m == a || m == b)
  {
    if a < b then b else a
  }

  /** Subtraction that stops at zero, as `saturating_sub` on an unsigned integer does. */
  function SatSub(a: nat, b: nat): (d: nat)
    ensures b <= a ==> d + b == a
    ensures a < b ==> d == 0
  {
    if b <= a then a - b else 0
  }

  function GetOr<K, V>(m: map<K, V>, k: K, default: V): V {
    if k in m then m[k] else default
  }

  /** The sum of a map's values. */
  ghost function SumValues<K>(m: map<K, nat>): (total: nat)
    ensures m == map[] ==> total == 0
  {
    if m == map[] then 0
    else
      var k :| k in m;
      m[k] + SumValues(m - {k})
  }

  /** Any key can be split off the sum, whichever key the definition picks first. */
  lemma {:induction false} SumSplit<K>(m: map<K, nat>, k: K)
    requires k in m
    ensures SumValues(m) == m[k] + SumValues(m - {k})
    decreases |m|
  {
    var j :| j in m && SumValues(m) == m[j] + SumValues(m - {j});
    if j != k {
      SumSplit(m - {j}, k);
      SumSplit(m - {k}, j);
      assert m - {j} - {k} == m - {k} - {j};
    }
  }

  lemma {:induction false} SumInsert<K>(m: map<K, nat>, k: K, v: nat)
    requires k !in m
    ensures SumValues(m[k := v]) == SumValues(m) + v
  {
    SumSplit(m[k := v], k);
    assert m[k := v] - {k} == m;
  }

  function Bit(b: bool): int {
    if b then 1 else 0
  }

  /** Two sets that differ at most in `x` differ in size by whether they contain it. */
  lemma {:induction false} SizesDiffer<T>(s: set<T>, s': set<T>, x: T)
    requires s - {x} == s' - {x}
    ensures |s'| == |s| - Bit(x in s) + Bit(x in s')
  {
    assert s == if x in s then (s - {x}) + {x} else s - {x};
    assert s' == if x in s' then (s' - {x}) + {x} else s' - {x};
  }

  ghost predicate Distinct<T(!new)>(q: seq<T>) {
    forall i, j | 0 <= i < j < |q| :: q[i] != q[j]
  }

  lemma {:induction false} DistinctSize<T(!new)>(q: seq<T>, keys: set<T>)
    requires Distinct(q) && forall k :: k in q <==> k in keys
    ensures |q| == |keys|
  {
    if q == [] {
      assert keys == {};
    } else {
      var rest := q[1..];
      assert q == [q[0]] + rest;
      forall k ensures k in rest <==> k in keys - {q[0]} {
        assert k in rest ==> k in q;
      }
      DistinctSize(rest, keys - {q[0]});
      assert q[0] in q;
    }
  }

  lemma {:induction false} SubsetSize<T>(s: set<T>, t: set<T>)
    requires s <= t
    ensures |s| <= |t| && (|s| == |t| <==> s == t)
  {
    assert t == s + (t - s);
    assert |t| == |s| + |t - s|;
    if |s| == |t| {
      assert t - s == {};
    }
  }

  /** How often `x` occurs. */
  function Count<T(==)>(s: seq<T>, x: T): nat {
    if s == [] then 0 else (if s[0] == x then 1 else 0) + Count(s[1..], x)
  }

  lemma {:induction false} CountSnoc<T>(s: seq<T>, y: T, x: T)
    ensures Count(s + [y], x) == Count(s, x) + (if y == x then 1 else 0)
  {
    if s == [] {
      assert s + [y] == [y];
    } else {
      assert (s + [y])[1..] == s[1..] + [y];
      CountSnoc(s[1..], y, x);
    }
  }

  lemma {:induction false} CountNone<T>(s: seq<T>, x: T)
    ensures Count(s, x) == 0 <==> x !in s
  {
    if s != [] {
      CountNone(s[1..], x);
      assert s == [s[0]] + s[1..];
    }
  }

  lemma {:induction false} FirstOf<T>(s: set<T>) returns (x: T)
    requires s != {}
    ensures x in s
  {
    x :| x in s;
  }

  /** Any element of a set; nothing is promised about which, as with a hash map's iteration order. */
  method Pick<T(==)>(s: set<T>) returns (x: T)
    requires s != {}
    ensures x in s
  {
    x :| x in s;
  }
}
