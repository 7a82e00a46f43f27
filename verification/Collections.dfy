/** Facts about finite sets and duplicate-free sequences that the tables and the
    chunked statements below rely on. */
module Collections {

  datatype Option<+T> = None | Some(value: T)

  type Positive = n: nat | n > 0 witness 1

  function Min(a: int, b: int): int {
    if a <= b then a else b
  }

  ghost predicate Distinct<T>(s: seq<T>) {
    forall i, j :: 0 <= i < j < |s| ==> s[i] != s[j]
  }

  function Elems<T>(s: seq<T>): set<T> {
    set x | x in s
  }

  lemma ElemsConcat<T>(a: seq<T>, b: seq<T>)
    ensures Elems(a + b) == Elems(a) + Elems(b)
  {
  }

  lemma {:induction false} DistinctCardinality<T>(s: seq<T>)
    requires Distinct(s)
    ensures |Elems(s)| == |s|
  {
    if s == [] {
    } else {
      var rest := s[..|s| - 1];
      DistinctCardinality(rest);
      assert s == rest + [s[|s| - 1]];
      assert Elems(s) == Elems(rest) + {s[|s| - 1]};
    }
  }

  lemma DistinctParts<T>(a: seq<T>, b: seq<T>)
    requires Distinct(a + b)
    ensures Distinct(a) && Distinct(b) && Elems(a) !! Elems(b)
  {
    assert forall i :: 0 <= i < |a| ==> (a + b)[i] == a[i];
    assert forall j :: 0 <= j < |b| ==> (a + b)[|a| + j] == b[j];
    forall x, y | x in Elems(a) && y in Elems(b) ensures x != y {
      var i :| 0 <= i < |a| && a[i] == x;
      var j :| 0 <= j < |b| && b[j] == y;
      assert (a + b)[i] != (a + b)[|a| + j];
    }
  }

  lemma DistinctJoin<T>(a: seq<T>, b: seq<T>)
    requires Distinct(a) && Distinct(b) && Elems(a) !! Elems(b)
    ensures Distinct(a + b)
  {
    forall i, j | 0 <= i < j < |a + b| ensures (a + b)[i] != (a + b)[j] {
      assert i < |a| ==> a[i] in Elems(a);
      assert j >= |a| ==> b[j - |a|] in Elems(b);
    }
  }

  lemma DistinctTake<T>(s: seq<T>, n: nat)
    requires Distinct(s) && n <= |s|
    ensures Distinct(s[..n]) && Elems(s[..n]) <= Elems(s)
  {
  }

  /** The elements of s not in drop, in order. */
  function FilterOut<T(==)>(s: seq<T>, drop: set<T>): seq<T> {
    if s == [] then []
    else
      var init, x := s[..|s| - 1], s[|s| - 1];
      if x in drop then FilterOut(init, drop) else FilterOut(init, drop) + [x]
  }

  lemma {:induction false} FilterOutKeeps<T>(s: seq<T>, drop: set<T>)
    ensures Elems(FilterOut(s, drop)) == set x | x in s && x !in drop
    ensures Distinct(s) ==> Distinct(FilterOut(s, drop))
  {
    if s == [] {
    } else {
      var init, x := s[..|s| - 1], s[|s| - 1];
      FilterOutKeeps(init, drop);
      assert s == init + [x];
      ElemsConcat(FilterOut(init, drop), [x]);
      if Distinct(s) {
        DistinctParts(init, [x]);
        if x !in drop { DistinctJoin(FilterOut(init, drop), [x]); }
      }
    }
  }

  /** kept is s without the elements in drop, each of the others in its place. */
  ghost predicate KeptAt<T>(places: seq<nat>, kept: seq<T>, s: seq<T>, drop: set<T>) {
    && Ascending(places) && |places| == |kept|
    && (forall i :: 0 <= i < |s| ==> (i in places <==> s[i] !in drop))
    && (forall j :: 0 <= j < |places| ==> places[j] < |s| && kept[j] == s[places[j]])
  }

  lemma KeptAtNext<T>(places: seq<nat>, kept: seq<T>, s: seq<T>, drop: set<T>, x: T)
    requires KeptAt(places, kept, s, drop)
    ensures x in drop ==> KeptAt(places, kept, s + [x], drop)
    ensures x !in drop ==> KeptAt(places + [|s|], kept + [x], s + [x], drop)
  {
    assert forall j :: 0 <= j < |places| ==> places[j] in places;
    if x !in drop {
      forall i | 0 <= i < |s + [x]| ensures i in places + [|s|] <==> (s + [x])[i] !in drop {
        if i < |s| {
          assert (s + [x])[i] == s[i] && (i in places + [|s|] <==> i in places);
        } else {
          assert (places + [|s|])[|places|] == i;
        }
      }
    }
  }

  lemma {:induction false} FilterOutPlaces<T>(s: seq<T>, drop: set<T>) returns (places: seq<nat>)
    ensures KeptAt(places, FilterOut(s, drop), s, drop)
  {
    if s == [] {
      places := [];
    } else {
      hide KeptAt;
      var n := |s| - 1;
      places := FilterOutPlaces(s[..n], drop);
      assert s == s[..n] + [s[n]];
      KeptAtNext(places, FilterOut(s[..n], drop), s[..n], drop, s[n]);
      places := if s[n] in drop then places else places + [n];
    }
  }

  lemma SubsetCardinality<T>(a: set<T>, b: set<T>)
    requires a <= b
    ensures |a| <= |b|
    ensures |a| == |b| ==> a == b
  {
    assert b == a + (b - a);
    assert |b| == |a| + |b - a|;
  }

  lemma DifferenceCardinality<T>(a: set<T>, b: set<T>)
    requires b <= a
    ensures |a - b| == |a| - |b|
  {
    assert a == b + (a - b);
  }

  ghost predicate IsLeast(m: nat, s: set<nat>) {
    m in s && forall x :: x in s ==> m <= x
  }

  lemma {:induction false} LeastExists(s: set<nat>)
    requires s != {}
    ensures exists m :: IsLeast(m, s)
  {
    var y :| y in s;
    if s == {y} {
      assert IsLeast(y, s);
    } else {
      LeastExists(s - {y});
      var m :| IsLeast(m, s - {y});
      assert forall x :: x in s ==> x == y || x in s - {y};
      assert IsLeast(if m <= y then m else y, s);
    }
  }

  function Least(s: set<nat>): (m: nat)
    requires s != {}
    ensures IsLeast(m, s)
  {
    LeastExists(s);
    assert forall a, b :: IsLeast(a, s) && IsLeast(b, s) ==> a == b;
    var m :| m in s && forall x :: x in s ==> m <= x;
    m
  }

  /** Some number is above every element of a finite set, so a generator can always
      hand out a new id. */
  lemma {:induction false} Above(s: set<nat>) returns (b: nat)
    ensures b > 0 && forall x :: x in s ==> x < b
  {
    b := 1;
    if s == {} {
    } else {
      var y :| y in s;
      b := Above(s - {y});
      assert forall x :: x in s ==> x == y || x in s - {y};
      b := if y < b then b else y + 1;
    }
  }

  /** Any positive number not in the set: a new id that no row has, and not uuid.Nil. */
  method FreshId(used: set<nat>) returns (id: nat)
    ensures id > 0 && id !in used
  {
    ghost var b := Above(used);
    assert b > 0 && b !in used;
    id :| id > 0 && id !in used;
  }

  /** The rows of a query without ORDER BY: some duplicate-free listing of the set. */
  method Enumerate<T>(s: set<T>) returns (q: seq<T>)
    ensures Distinct(q) && Elems(q) == s
  {
    q := [];
    var left := s;
    while left != {}
      invariant Distinct(q) && Elems(q) !! left && Elems(q) + left == s
      decreases left
    {
      var x :| x in left;
      ghost var before := q;
      q := q + [x];
      left := left - {x};
      ElemsConcat(before, [x]);
    }
  }

  ghost predicate Ascending(s: seq<nat>) {
    forall i, j :: 0 <= i < j < |s| ==> s[i] < s[j]
  }

  /** The smallest min(n, |s|) elements of s, ascending: ORDER BY id LIMIT n. */
  function FirstIds(s: set<nat>, n: nat): seq<nat>
    decreases n
  {
    if n == 0 || s == {} then [] else [Least(s)] + FirstIds(s - {Least(s)}, n - 1)
  }

  /** What ORDER BY id LIMIT n promises of its rows: ascending, full unless the set
      ran out, and everything left out lies beyond them. */
  ghost predicate IsPage(page: seq<nat>, s: set<nat>, n: nat) {
    && |page| == Min(n, |s|)
    && Elems(page) <= s
    && Ascending(page)
    && Below(Elems(page), s - Elems(page))
  }

  ghost predicate Below(a: set<nat>, b: set<nat>) {
    forall x, y :: x in a && y in b ==> x < y
  }

  lemma {:induction false} FirstIdsIsPage(s: set<nat>, n: nat)
    ensures IsPage(FirstIds(s, n), s, n)
    decreases n
  {
    if n == 0 || s == {} {
    } else {
      var m := Least(s);
      FirstIdsIsPage(s - {m}, n - 1);
      PrependLeast(m, FirstIds(s - {m}, n - 1), s, n);
    }
  }

  lemma PrependElems<T>(m: T, tail: seq<T>)
    ensures Elems([m] + tail) == {m} + Elems(tail)
  {
    ElemsConcat([m], tail);
    assert Elems([m]) == {m};
  }

  lemma PrependAscending(m: nat, tail: seq<nat>)
    requires Ascending(tail) && forall x :: x in Elems(tail) ==> m < x
    ensures Ascending([m] + tail)
  {
    var page := [m] + tail;
    forall i, j | 0 <= i < j < |page| ensures page[i] < page[j] {
      assert page[j] == tail[j - 1] && tail[j - 1] in Elems(tail);
      if i > 0 { assert page[i] == tail[i - 1]; }
    }
  }

  lemma PrependBelow(m: nat, taken: set<nat>, s: set<nat>)
    requires IsLeast(m, s)
    requires Below(taken, (s - {m}) - taken)
    ensures Below({m} + taken, s - ({m} + taken))
  {
    assert s - ({m} + taken) == (s - {m}) - taken;
  }

  lemma PrependLeast(m: nat, tail: seq<nat>, s: set<nat>, n: nat)
    requires IsLeast(m, s) && n > 0
    requires IsPage(tail, s - {m}, n - 1)
    ensures IsPage([m] + tail, s, n)
  {
    PrependElems(m, tail);
    PrependBelow(m, Elems(tail), s);
    PrependAscending(m, tail);
    assert |s - {m}| == |s| - 1;
  }

  lemma AscendingIsDistinct(s: seq<nat>)
    requires Ascending(s)
    ensures Distinct(s) && |Elems(s)| == |s|
  {
    DistinctCardinality(s);
  }

  function CeilDiv(a: nat, b: Positive): nat {
    (a + b - 1) / b
  }

  lemma CeilDivIs(a: nat, b: Positive, q: nat)
    requires q * b >= a
    requires q > 0 ==> (q - 1) * b < a
    ensures CeilDiv(a, b) == q
  {
    var r := a + b - 1 - q * b;
    if q == 0 {
      assert a == 0;
      assert CeilDiv(a, b) == (b - 1) / b == 0;
    } else {
      assert (q - 1) * b == q * b - b;
      assert 0 <= r < b;
      DivIs(a + b - 1, b, q, r);
    }
  }

  lemma DivIs(n: nat, b: Positive, q: nat, r: nat)
    requires n == q * b + r && r < b
    ensures n / b == q && n % b == r
  {
    var q', r' := n / b, n % b;
    assert (q - q') * b == r' - r;
    if q > q' {
      MulMonotone(1, q - q', b);
    } else if q < q' {
      MulMonotone(q - q', -1, b);
    }
  }

  lemma MulMonotone(a: int, c: int, b: nat)
    requires a <= c
    ensures a * b <= c * b
  {
  }

  lemma NextMultiple(q: nat, r: nat, n: nat, m: Positive)
    requires r < m && 0 < n <= m
    ensures (q * m + r + n) / m == q + (if (q * m + r + n) % m < n then 1 else 0)
  {
    if r + n < m {
      DivIs(q * m + r + n, m, q, r + n);
    } else {
      assert (q + 1) * m == q * m + m;
      DivIs(q * m + r + n, m, q + 1, r + n - m);
    }
  }

  /** Adding n <= m to a counter crosses a multiple of m exactly when the new
      remainder is below n. */
  lemma CrossesMultiple(before: nat, n: nat, m: Positive)
    requires 0 < n <= m
    ensures (before + n) / m == before / m + (if (before + n) % m < n then 1 else 0)
  {
    var q, r := before / m, before % m;
    NextMultiple(q, r, n, m);
    assert before + n == q * m + r + n;
  }

  function Chunk<T>(s: seq<T>, from: nat, n: Positive): seq<T>
    requires from <= |s|
  {
    s[from..Min(from + n, |s|)]
  }

  lemma ChunkExtends<T>(s: seq<T>, from: nat, n: Positive)
    requires from < |s|
    ensures |Chunk(s, from, n)| > 0
    ensures |Chunk(s, from, n)| == if |s| - from <= n then |s| - from else n
    ensures from + |Chunk(s, from, n)| <= |s|
    ensures s[..from] + Chunk(s, from, n) == s[..from + |Chunk(s, from, n)|]
  {
  }

  /** Chunking what is left is chunking the whole from where it got to. */
  lemma ChunkOfRest<T>(s: seq<T>, from: nat, n: Positive)
    requires from < |s|
    ensures Chunk(s[from..], 0, n) == Chunk(s, from, n)
    ensures s[from..][|Chunk(s, from, n)|..] == s[from + |Chunk(s, from, n)|..]
  {
  }
}
