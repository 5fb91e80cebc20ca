/** Shared vocabulary: optional values, results, upload field values, ASCII text
    helpers, counting over sequences, and exact resistance percentages. */
module Common {

  datatype Option<+T> = None | Some(value: T)

  /** The value, or `default` when absent. */
  function GetOr<T>(o: Option<T>, default: T): T
  {
    if o.Some? then o.value else default
  }

  datatype Result<+T, +E> = Ok(value: T) | Err(error: E)

  /** A field value of an already-parsed upload record (CSV cell or JSON scalar). */
  datatype Value = Text(s: string) | Flag(b: bool)

  /** Python truthiness of a record value. */
  predicate Truthy(v: Value)
  {
    match v
    case Text(s) => s != ""
    case Flag(b) => b
  }

  /** Python truthiness of an optional integer parameter: present and non-zero. */
  predicate TruthyInt(x: Option<int>) { x.Some? && x.value != 0 }

  /** Python truthiness of an optional string parameter: present and non-empty. */
  predicate TruthyText(x: Option<string>) { x.Some? && x.value != "" }

  /** Python `str()` of a record value, as used by f-strings. */
  function Render(v: Value): (r: string)
    ensures v.Text? ==> r == v.s
    ensures v == Flag(true) ==> r == "True"
    ensures v == Flag(false) ==> r == "False"
  {
    match v
    case Text(s) => s
    case Flag(b) => if b then "True" else "False"
  }

  // ---------------------------------------------------------------- text

  function LowerChar(c: char): (r: char)
    ensures 'A' <= c <= 'Z' ==> r == (c as int + 32) as char
    ensures !('A' <= c <= 'Z') ==> r == c
  {
    if 'A' <= c <= 'Z' then (c as int + 32) as char else c
  }

  /** ASCII lower-casing (Python `str.lower` / JavaScript `toLowerCase` on ASCII text). */
  function Lower(s: string): (r: string)
    ensures |r| == |s|
    ensures forall i :: 0 <= i < |s| ==> r[i] == LowerChar(s[i])
  {
    seq(|s|, i requires 0 <= i < |s| => LowerChar(s[i]))
  }

  predicate StartsWith(s: string, prefix: string)
  {
    |prefix| <= |s| && s[..|prefix|] == prefix
  }

  predicate EndsWith(s: string, suffix: string)
  {
    |suffix| <= |s| && s[|s| - |suffix|..] == suffix
  }

  /** The index of the last occurrence of `c` in `s`, if any. */
  function LastIndexOf(s: string, c: char): (r: Option<nat>)
    ensures r.None? <==> c !in s
    ensures r.Some? ==> r.value < |s| && s[r.value] == c && c !in s[r.value + 1..]
  {
    if s == [] then None
    else if s[|s| - 1] == c then Some(|s| - 1)
    else
      var r := LastIndexOf(s[..|s| - 1], c);
      assert s[..|s| - 1] + [s[|s| - 1]] == s;
      if r.Some? then
        assert s[r.value + 1..] == s[r.value + 1..|s| - 1] + [s[|s| - 1]];
        r
      else r
  }

  /** The last occurrence is the only one with no further occurrence after it. */
  lemma LastIndexOfUnique(s: string, c: char, j: nat)
    requires j < |s| && s[j] == c && c !in s[j + 1..]
    ensures LastIndexOf(s, c) == Some(j)
  {
    var k := LastIndexOf(s, c).value;
    assert s[k] == c && s[j] == c;
  }

  /** The part of `s` before the first occurrence of `c` (Python `s.split(c)[0]`). */
  function Before(s: string, c: char): (r: string)
    ensures StartsWith(s, r)
    ensures c !in r
    ensures |r| < |s| ==> s[|r|] == c
    ensures c !in s ==> r == s
  {
    if s == [] then []
    else if s[0] == c then []
    else [s[0]] + Before(s[1..], c)
  }

  /** The first `n` elements of `s`, or all of them when there are fewer: Python `s[:n]`, SQL `LIMIT n`,
      JavaScript `slice(0, n)` and `substring(0, n)`. */
  function Take<T>(s: seq<T>, n: nat): (r: seq<T>)
    ensures |r| == if |s| <= n then |s| else n
    ensures |r| <= |s| && s[..|r|] == r
  {
    if |s| <= n then s else s[..n]
  }

  /** Decimal rendering of a natural number (Python `str(n)` / JavaScript string concatenation). */
  function DecimalString(n: nat): (r: string)
    ensures |r| >= 1
    ensures forall i :: 0 <= i < |r| ==> '0' <= r[i] <= '9'
  {
    if n < 10 then [(48 + n) as char]
    else DecimalString(n / 10) + [(48 + n % 10) as char]
  }

  // ---------------------------------------------------------------- counting

  function Count<T>(xs: seq<T>, p: T -> bool): (n: nat)
    ensures n <= |xs|
  {
    if xs == [] then 0 else (if p(xs[0]) then 1 else 0) + Count(xs[1..], p)
  }

  function Filter<T>(xs: seq<T>, p: T -> bool): (r: seq<T>)
    ensures |r| == Count(xs, p)
    ensures forall x :: x in r ==> x in xs && p(x)
    ensures forall x :: x in xs && p(x) ==> x in r
  {
    if xs == [] then [] else (if p(xs[0]) then [xs[0]] else []) + Filter(xs[1..], p)
  }

  lemma {:induction false} CountAppend<T>(xs: seq<T>, ys: seq<T>, p: T -> bool)
    ensures Count(xs + ys, p) == Count(xs, p) + Count(ys, p)
  {
    if xs != [] {
      assert (xs + ys)[0] == xs[0];
      assert (xs + ys)[1..] == xs[1..] + ys;
      CountAppend(xs[1..], ys, p);
    } else {
      assert xs + ys == ys;
    }
  }

  /** One more element of a prefix: the step of a loop that filters or counts. */
  lemma FilterPrefix<T>(xs: seq<T>, j: nat, p: T -> bool)
    requires j < |xs|
    ensures Filter(xs[..j + 1], p) == Filter(xs[..j], p) + (if p(xs[j]) then [xs[j]] else [])
    ensures Count(xs[..j + 1], p) == Count(xs[..j], p) + (if p(xs[j]) then 1 else 0)
  {
    assert xs[..j + 1] == xs[..j] + [xs[j]];
    FilterSnoc(xs[..j], xs[j], p);
  }

  /** Appending one element to the input appends at most that element to the filtered result. */
  lemma FilterSnoc<T>(xs: seq<T>, x: T, p: T -> bool)
    ensures Filter(xs + [x], p) == Filter(xs, p) + (if p(x) then [x] else [])
    ensures Count(xs + [x], p) == Count(xs, p) + (if p(x) then 1 else 0)
  {
    FilterAppend(xs, [x], p);
    CountAppend(xs, [x], p);
    assert [x][1..] == [];
  }

  /** `[f(k) for k in ks if p(k)]`, where `f` is defined at least where `p` holds. */
  function Select<K, V>(ks: seq<K>, p: K -> bool, f: K --> V): seq<V>
    requires forall k :: k in ks && p(k) ==> f.requires(k)
  {
    if ks == [] then []
    else
      var k := ks[|ks| - 1];
      Select(ks[..|ks| - 1], p, f) + if p(k) then [f(k)] else []
  }

  /** The selection holds `f` of the kept elements, in order. */
  lemma {:induction false} SelectAre<K, V>(ks: seq<K>, p: K -> bool, f: K --> V)
    requires forall k :: k in ks && p(k) ==> f.requires(k)
    ensures |Select(ks, p, f)| == Count(ks, p)
    ensures forall i :: 0 <= i < |Select(ks, p, f)| ==>
              Filter(ks, p)[i] in ks && p(Filter(ks, p)[i]) && Select(ks, p, f)[i] == f(Filter(ks, p)[i])
  {
    if ks != [] {
      var init := ks[..|ks| - 1];
      var k := ks[|ks| - 1];
      assert ks == init + [k];
      SelectAre(init, p, f);
      FilterSnoc(init, k, p);
      var r0, g0 := Select(init, p, f), Filter(init, p);
      var r, g := Select(ks, p, f), Filter(ks, p);
      forall i | 0 <= i < |r|
        ensures g[i] in ks && p(g[i]) && r[i] == f(g[i])
      {
        assert g[i] in g;
        if i < |r0| {
          assert r[i] == r0[i] && g[i] == g0[i];
        }
      }
    }
  }

  lemma {:induction false} FilterAppend<T>(xs: seq<T>, ys: seq<T>, p: T -> bool)
    ensures Filter(xs + ys, p) == Filter(xs, p) + Filter(ys, p)
  {
    if xs != [] {
      assert (xs + ys)[0] == xs[0];
      assert (xs + ys)[1..] == xs[1..] + ys;
      FilterAppend(xs[1..], ys, p);
    } else {
      assert xs + ys == ys;
    }
  }

  lemma {:induction false} CountMonotone<T>(xs: seq<T>, p: T -> bool, q: T -> bool)
    requires forall x :: x in xs && p(x) ==> q(x)
    ensures Count(xs, p) <= Count(xs, q)
  {
    if xs != [] {
      assert forall x :: x in xs[1..] ==> x in xs;
      CountMonotone(xs[1..], p, q);
    }
  }

  /** Nothing is counted exactly when no element satisfies the predicate. */
  lemma {:induction false} CountZero<T>(xs: seq<T>, p: T -> bool)
    ensures Count(xs, p) == 0 <==> forall x :: x in xs ==> !p(x)
  {
    if xs != [] {
      assert forall x :: x in xs ==> x == xs[0] || x in xs[1..];
      CountZero(xs[1..], p);
    }
  }

  /** Predicates that agree on `xs` count the same. */
  lemma {:induction false} CountSame<T>(xs: seq<T>, p: T -> bool, q: T -> bool)
    requires forall x :: x in xs ==> p(x) == q(x)
    ensures Count(xs, p) == Count(xs, q)
  {
    if xs != [] {
      assert forall x :: x in xs[1..] ==> x in xs;
      CountSame(xs[1..], p, q);
    }
  }

  /** Counting under a weaker predicate gives the same number exactly when the two agree on `xs`. */
  lemma {:induction false} CountEqualIff<T>(xs: seq<T>, p: T -> bool, q: T -> bool)
    requires forall x :: x in xs && p(x) ==> q(x)
    ensures Count(xs, p) == Count(xs, q) <==> forall x :: x in xs && q(x) ==> p(x)
  {
    if xs != [] {
      assert forall x :: x in xs[1..] ==> x in xs;
      CountEqualIff(xs[1..], p, q);
      CountMonotone(xs[1..], p, q);
      if forall x :: x in xs && q(x) ==> p(x) {
      } else {
        var x :| x in xs && q(x) && !p(x);
        if x != xs[0] {
          assert x in xs[1..];
        }
      }
    }
  }

  /** Counts of two exclusive predicates add up to the count of their disjunction `r`. */
  lemma {:induction false} CountDisjoint<T>(xs: seq<T>, p: T -> bool, q: T -> bool, r: T -> bool)
    requires forall x :: x in xs ==> (r(x) <==> p(x) || q(x)) && !(p(x) && q(x))
    ensures Count(xs, r) == Count(xs, p) + Count(xs, q)
  {
    if xs != [] {
      assert forall x :: x in xs[1..] ==> x in xs;
      CountDisjoint(xs[1..], p, q, r);
    }
  }

  lemma CountPositive<T>(xs: seq<T>, p: T -> bool, x: T)
    requires x in xs && p(x)
    ensures Count(xs, p) > 0
  {
    assert x in Filter(xs, p);
  }

  lemma {:induction false} FilterAllKept<T>(xs: seq<T>, p: T -> bool)
    requires forall i :: 0 <= i < |xs| ==> p(xs[i])
    ensures Filter(xs, p) == xs
  {
    if xs != [] {
      FilterAllKept(xs[1..], p);
    }
  }

  /** Elements of a filtered sequence keep their relative order: the result is a subsequence. */
  predicate IsSubsequence<T(==)>(r: seq<T>, xs: seq<T>)
    decreases |xs|
  {
    if r == [] then true
    else if xs == [] then false
    else if r[0] == xs[0] then IsSubsequence(r[1..], xs[1..])
    else IsSubsequence(r, xs[1..])
  }

  lemma {:induction false} FilterIsSubsequence<T>(xs: seq<T>, p: T -> bool)
    ensures IsSubsequence(Filter(xs, p), xs)
  {
    if xs != [] {
      FilterIsSubsequence(xs[1..], p);
      if !p(xs[0]) {
        assert Filter(xs, p) == Filter(xs[1..], p);
        SubsequenceDropHead(Filter(xs[1..], p), xs);
      } else {
        assert Filter(xs, p) == [xs[0]] + Filter(xs[1..], p);
        assert Filter(xs, p)[1..] == Filter(xs[1..], p);
      }
    }
  }

  lemma {:induction false} SubsequenceDropHead<T>(r: seq<T>, xs: seq<T>)
    requires xs != [] && IsSubsequence(r, xs[1..])
    ensures IsSubsequence(r, xs)
    decreases |xs|, 0
  {
    if r != [] && r[0] == xs[0] {
      // r[1..] is a subsequence of xs[1..] because r is
      SubsequenceTail(r, xs[1..]);
    }
  }

  lemma {:induction false} SubsequenceTail<T>(r: seq<T>, xs: seq<T>)
    requires r != [] && IsSubsequence(r, xs)
    ensures IsSubsequence(r[1..], xs)
    decreases |xs|, 1
  {
    if xs == [] {
    } else if r[0] == xs[0] {
      if r[1..] != [] {
        SubsequenceTail(r[1..], xs[1..]);
        SubsequenceDropHead(r[1..], xs);
      }
    } else {
      SubsequenceTail(r, xs[1..]);
      if r[1..] != [] {
        SubsequenceDropHead(r[1..], xs);
      }
    }
  }

  /** The first element satisfying `p` (SQL `.filter(...).first()` in insertion order). */
  function First<T>(xs: seq<T>, p: T -> bool): (r: Option<T>)
    ensures r.None? <==> forall x :: x in xs ==> !p(x)
    ensures r.Some? ==> r.value in xs && p(r.value)
  {
    if xs == [] then None else if p(xs[0]) then Some(xs[0]) else First(xs[1..], p)
  }

  /** The position of the first element satisfying `p`. */
  function FirstIndex<T>(xs: seq<T>, p: T -> bool): (r: Option<nat>)
    ensures r.None? <==> forall i :: 0 <= i < |xs| ==> !p(xs[i])
    ensures r.Some? ==> r.value < |xs| && p(xs[r.value]) && forall i :: 0 <= i < r.value ==> !p(xs[i])
  {
    if xs == [] then None
    else if p(xs[0]) then Some(0)
    else match FirstIndex(xs[1..], p)
      case None => None
      case Some(i) => Some(i + 1)
  }

  /** Sequences on which two predicates agree position by position have their first hit at the same place. */
  lemma FirstIndexAgree<T, U>(xs: seq<T>, p: T -> bool, ys: seq<U>, q: U -> bool)
    requires |xs| == |ys| && forall i :: 0 <= i < |xs| ==> p(xs[i]) == q(ys[i])
    ensures FirstIndex(xs, p) == FirstIndex(ys, q)
  {
    var a, b := FirstIndex(xs, p), FirstIndex(ys, q);
    if a.Some? {
      assert q(ys[a.value]);
    }
    if b.Some? {
      assert p(xs[b.value]);
    }
  }

  /** The keys of `xs` in order of first appearance, each once (a GROUP BY's groups). */
  function DistinctKeys<T, K(==,!new)>(xs: seq<T>, key: T -> K): (ks: seq<K>)
    ensures forall i, j :: 0 <= i < j < |ks| ==> ks[i] != ks[j]
    ensures forall k :: k in ks <==> exists x :: x in xs && key(x) == k
  {
    if xs == [] then []
    else
      var rest := DistinctKeys(xs[..|xs| - 1], key);
      assert xs == xs[..|xs| - 1] + [xs[|xs| - 1]];
      if key(xs[|xs| - 1]) in rest then rest else rest + [key(xs[|xs| - 1])]
  }

  // ---------------------------------------------------------------- grouping

  function All<T>(): T -> bool
  {
    (x: T) => true
  }

  lemma {:induction false} CountAll<T>(xs: seq<T>)
    ensures Count(xs, All()) == |xs|
  {
    if xs != [] {
      CountAll(xs[1..]);
    }
  }

  /** Members of group `k` that also satisfy `p`. */
  function InGroup<T, K(==)>(key: T -> K, k: K, p: T -> bool): T -> bool
  {
    (x: T) => key(x) == k && p(x)
  }

  /** The sum, over the groups `ks`, of the number of group members satisfying `p`. */
  function SumCounts<T, K(==)>(xs: seq<T>, key: T -> K, ks: seq<K>, p: T -> bool): nat
  {
    if ks == [] then 0 else SumCounts(xs, key, ks[..|ks| - 1], p) + Count(xs, InGroup(key, ks[|ks| - 1], p))
  }

  predicate Distinct<K(==)>(ks: seq<K>)
  {
    forall i, j :: 0 <= i < j < |ks| ==> ks[i] != ks[j]
  }

  /** The number of groups in `ks` that `x` falls in while satisfying `p`. */
  function Hits<T, K(==)>(x: T, key: T -> K, ks: seq<K>, p: T -> bool): nat
  {
    if ks == [] then 0 else Hits(x, key, ks[..|ks| - 1], p) + (if key(x) == ks[|ks| - 1] && p(x) then 1 else 0)
  }

  lemma {:induction false} HitsOnce<T, K>(x: T, key: T -> K, ks: seq<K>, p: T -> bool)
    requires Distinct(ks)
    ensures Hits(x, key, ks, p) == if key(x) in ks && p(x) then 1 else 0
  {
    if ks != [] {
      var init := ks[..|ks| - 1];
      assert ks == init + [ks[|ks| - 1]];
      assert Distinct(init);
      HitsOnce(x, key, init, p);
      if key(x) == ks[|ks| - 1] {
        assert key(x) !in init;
      }
    }
  }

  lemma {:induction false} SumCountsEmpty<T, K>(key: T -> K, ks: seq<K>, p: T -> bool)
    ensures SumCounts([], key, ks, p) == 0
  {
    if ks != [] {
      SumCountsEmpty(key, ks[..|ks| - 1], p);
    }
  }

  lemma {:induction false} SumCountsCons<T, K>(x: T, xs: seq<T>, key: T -> K, ks: seq<K>, p: T -> bool)
    ensures SumCounts([x] + xs, key, ks, p) == Hits(x, key, ks, p) + SumCounts(xs, key, ks, p)
  {
    if ks != [] {
      SumCountsCons(x, xs, key, ks[..|ks| - 1], p);
      assert ([x] + xs)[1..] == xs;
    }
  }

  /** Groups with distinct keys that cover every element partition it: the group counts add up to the total. */
  lemma {:induction false} SumCountsPartition<T, K>(xs: seq<T>, key: T -> K, ks: seq<K>, p: T -> bool)
    requires Distinct(ks)
    requires forall x :: x in xs ==> key(x) in ks
    ensures SumCounts(xs, key, ks, p) == Count(xs, p)
  {
    if xs == [] {
      SumCountsEmpty(key, ks, p);
    } else {
      assert xs == [xs[0]] + xs[1..];
      SumCountsCons(xs[0], xs[1..], key, ks, p);
      HitsOnce(xs[0], key, ks, p);
      SumCountsPartition(xs[1..], key, ks, p);
    }
  }

  // ---------------------------------------------------------------- sorting

  predicate SortedDesc<T>(xs: seq<T>, key: T -> real)
  {
    forall i, j :: 0 <= i < j < |xs| ==> key(xs[i]) >= key(xs[j])
  }

  /** `x` placed after every element whose key is at least its own. */
  function InsertDesc<T(==)>(x: T, s: seq<T>, key: T -> real): (r: seq<T>)
    ensures multiset(r) == multiset(s) + multiset{x}
    ensures SortedDesc(s, key) ==> SortedDesc(r, key)
  {
    InsertElements(x, s, key);
    if SortedDesc(s, key) then InsertSorted(x, s, key); Insert(x, s, key)
    else Insert(x, s, key)
  }

  function Insert<T>(x: T, s: seq<T>, key: T -> real): seq<T>
  {
    if s == [] then [x]
    else if key(s[0]) >= key(x) then [s[0]] + Insert(x, s[1..], key)
    else [x] + s
  }

  /** Insertion adds exactly the one element. */
  lemma {:induction false} InsertElements<T>(x: T, s: seq<T>, key: T -> real)
    ensures multiset(Insert(x, s, key)) == multiset(s) + multiset{x}
    ensures |Insert(x, s, key)| == |s| + 1
  {
    if s != [] && key(s[0]) >= key(x) {
      InsertElements(x, s[1..], key);
      assert s == [s[0]] + s[1..];
    }
  }

  lemma InsertMembers<T>(x: T, s: seq<T>, key: T -> real)
    ensures forall y :: y in Insert(x, s, key) ==> y == x || y in s
  {
    InsertElements(x, s, key);
    forall y | y in Insert(x, s, key)
      ensures y == x || y in s
    {
      assert y in multiset(Insert(x, s, key));
    }
  }

  /** Insertion into a descending sequence keeps it descending. */
  lemma {:induction false} InsertSorted<T>(x: T, s: seq<T>, key: T -> real)
    requires SortedDesc(s, key)
    ensures SortedDesc(Insert(x, s, key), key)
  {
    if s != [] && key(s[0]) >= key(x) {
      var rest := Insert(x, s[1..], key);
      assert SortedDesc(s[1..], key) by {
        forall i, j | 0 <= i < j < |s[1..]|
          ensures key(s[1..][i]) >= key(s[1..][j])
        {
          assert s[1..][i] == s[i + 1] && s[1..][j] == s[j + 1];
        }
      }
      InsertSorted(x, s[1..], key);
      InsertMembers(x, s[1..], key);
      var r := [s[0]] + rest;
      forall i, j | 0 <= i < j < |r|
        ensures key(r[i]) >= key(r[j])
      {
        if i == 0 {
          assert r[j] in rest;
          if r[j] != x {
            var k :| 0 <= k < |s[1..]| && s[1..][k] == r[j];
            assert s[k + 1] == r[j];
          }
        } else {
          assert r[i] == rest[i - 1] && r[j] == rest[j - 1];
        }
      }
    }
  }

  /** A stable sort by descending key (Python `sort(key=..., reverse=True)`). */
  function SortDesc<T(==)>(xs: seq<T>, key: T -> real): (r: seq<T>)
    ensures multiset(r) == multiset(xs)
    ensures |r| == |xs|
    ensures SortedDesc(r, key)
  {
    if xs == [] then []
    else
      assert xs == xs[..|xs| - 1] + [xs[|xs| - 1]];
      var r := InsertDesc(xs[|xs| - 1], SortDesc(xs[..|xs| - 1], key), key);
      assert |r| == |multiset(r)|;
      r
  }

  /** The first `k` of a descending sort: sorted, and no element left out ranks above one kept. */
  lemma TopRanked<T>(xs: seq<T>, key: T -> real, k: nat)
    ensures var ranked := SortDesc(xs, key);
            var top := Take(ranked, k);
            SortedDesc(top, key) && forall i, j :: 0 <= i < |top| <= j < |ranked| ==> key(ranked[j]) <= key(top[i])
  {
    var ranked := SortDesc(xs, key);
    var top := Take(ranked, k);
    forall i, j | 0 <= i < |top| <= j < |ranked|
      ensures key(ranked[j]) <= key(top[i])
    {
      assert top[i] == ranked[i];
    }
    forall i, j | 0 <= i < j < |top|
      ensures key(top[i]) >= key(top[j])
    {
      assert top[i] == ranked[i] && top[j] == ranked[j];
    }
  }

  function Negated<T>(key: T -> real): T -> real
  {
    (x: T) => -key(x)
  }

  /** A stable sort by ascending key (Python `sort(key=...)`). */
  function SortAsc<T(==)>(xs: seq<T>, key: T -> real): (r: seq<T>)
    ensures multiset(r) == multiset(xs)
    ensures |r| == |xs|
    ensures forall i, j :: 0 <= i < j < |r| ==> key(r[i]) <= key(r[j])
  {
    var r := SortDesc(xs, Negated(key));
    assert forall i, j :: 0 <= i < j < |r| ==> Negated(key)(r[i]) >= Negated(key)(r[j]);
    r
  }

  /** Two equal elements at different positions occur at least twice in the multiset. */
  lemma MultisetTwice<T>(xs: seq<T>, i: nat, j: nat)
    requires i < j < |xs|
    ensures xs[i] == xs[j] ==> multiset(xs)[xs[i]] >= 2
  {
    if xs[i] == xs[j] {
      assert xs == xs[..j] + xs[j..];
      assert xs[..j][i] == xs[i];
      assert xs[j..][0] == xs[j];
      assert multiset(xs) == multiset(xs[..j]) + multiset(xs[j..]);
    }
  }

  /** Elements whose keys are pairwise distinct each occur once. */
  lemma {:induction false} KeysDistinctOnce<T, K>(xs: seq<T>, key: T -> K)
    requires forall i, j :: 0 <= i < j < |xs| ==> key(xs[i]) != key(xs[j])
    ensures forall x :: multiset(xs)[x] <= 1
  {
    if xs != [] {
      var init, last := xs[..|xs| - 1], xs[|xs| - 1];
      assert xs == init + [last];
      KeysDistinctOnce(init, key);
      assert last !in init by {
        forall k | 0 <= k < |init|
          ensures init[k] != last
        {
          assert key(xs[k]) != key(xs[|xs| - 1]);
        }
      }
      assert multiset(xs) == multiset(init) + multiset{last};
    }
  }

  /** Appending an element whose key is new keeps the keys pairwise distinct. */
  lemma KeysDistinctSnoc<T, K>(xs: seq<T>, x: T, key: T -> K)
    requires forall i, j :: 0 <= i < j < |xs| ==> key(xs[i]) != key(xs[j])
    requires forall y :: y in xs ==> key(y) != key(x)
    ensures var ys := xs + [x];
            forall i, j :: 0 <= i < j < |ys| ==> key(ys[i]) != key(ys[j])
  {
    var ys := xs + [x];
    forall i, j | 0 <= i < j < |ys|
      ensures key(ys[i]) != key(ys[j])
    {
      assert ys[i] == xs[i];
      if j < |xs| {
        assert ys[j] == xs[j];
      } else {
        assert xs[i] in xs;
      }
    }
  }

  /** A permutation of a sequence with pairwise distinct keys has pairwise distinct keys. */
  lemma PermutationKeepsKeysDistinct<T, K>(xs: seq<T>, ys: seq<T>, key: T -> K)
    requires multiset(xs) == multiset(ys)
    requires forall i, j :: 0 <= i < j < |ys| ==> key(ys[i]) != key(ys[j])
    ensures forall i, j :: 0 <= i < j < |xs| ==> key(xs[i]) != key(xs[j])
  {
    KeysDistinctOnce(ys, key);
    forall i, j | 0 <= i < j < |xs|
      ensures key(xs[i]) != key(xs[j])
    {
      MultisetTwice(xs, i, j);
      assert xs[i] in multiset(ys) && xs[j] in multiset(ys);
      var p :| 0 <= p < |ys| && ys[p] == xs[i];
      var q :| 0 <= q < |ys| && ys[q] == xs[j];
      assert p != q ==> key(ys[p]) != key(ys[q]);
    }
  }

  // ---------------------------------------------------------------- percentages

  /** `resistant / total * 100`, exactly, with the zero-total guard giving 0. */
  function Percent(resistant: nat, total: nat): (p: real)
    ensures total == 0 ==> p == 0.0
    ensures 0.0 <= p
    ensures resistant <= total ==> p <= 100.0
  {
    if total == 0 then 0.0 else 100.0 * resistant as real / total as real
  }

  /** A percentage scaled back by its total is a hundred times the count. */
  lemma PercentScaled(resistant: nat, total: nat)
    requires total > 0
    ensures Percent(resistant, total) * total as real == 100.0 * resistant as real
  {
  }

  /** The same, for a value known to be that percentage. */
  lemma PercentScaledAs(p: real, resistant: nat, total: nat)
    requires total > 0 && p == Percent(resistant, total)
    ensures p * total as real == 100.0 * resistant as real
  {
    PercentScaled(resistant, total);
  }

  /** Percentages over one denominator add as their numerators do. */
  lemma PercentAdds(a: nat, b: nat, total: nat)
    ensures Percent(a, total) + Percent(b, total) == Percent(a + b, total)
  {
    if total > 0 {
      var t := total as real;
      assert 100.0 * a as real / t + 100.0 * b as real / t == (100.0 * a as real + 100.0 * b as real) / t;
    }
  }

  /** Threshold tests on a percentage are cross-multiplications on the counts. */
  lemma PercentAtLeast(resistant: nat, total: nat, k: int)
    requires total > 0
    ensures Percent(resistant, total) >= k as real <==> 100 * resistant >= k * total
    ensures Percent(resistant, total) > k as real <==> 100 * resistant > k * total
  {
    var p := Percent(resistant, total);
    var t := total as real;
    PercentScaled(resistant, total);
    assert (k * total) as real == k as real * t;
    assert (100 * resistant) as real == 100.0 * resistant as real;
    if p >= k as real {
      assert p * t >= k as real * t;
    } else {
      assert p * t < k as real * t;
    }
    if p > k as real {
      assert p * t > k as real * t;
    } else {
      assert p * t <= k as real * t;
    }
  }

  /** A percentage is 0 exactly when nothing is counted, and 100 exactly when everything is. */
  lemma PercentExtremes(part: nat, total: nat)
    requires part <= total
    ensures Percent(part, total) == 0.0 <==> part == 0 || total == 0
    ensures total > 0 ==> (Percent(part, total) == 100.0 <==> part == total)
  {
    if total > 0 {
      PercentAtLeast(part, total, 0);
      PercentAtLeast(part, total, 100);
    }
  }

  /** Python's `round` of the exact quotient `n / d`: to nearest, ties to even. */
  function RoundHalfEven(n: nat, d: nat): (r: nat)
    requires d > 0
  {
    var q := n / d;
    var rem := n % d;
    if 2 * rem > d then q + 1
    else if 2 * rem < d then q
    else if q % 2 == 0 then q else q + 1
  }

  function Abs(x: int): nat { if x < 0 then -x else x }

  /** The rounded value is within half a unit of the exact quotient, and a tie goes to the even neighbour. */
  lemma RoundHalfEvenNearest(n: nat, d: nat)
    requires d > 0
    ensures 2 * Abs(RoundHalfEven(n, d) * d - n) <= d
    ensures 2 * Abs(RoundHalfEven(n, d) * d - n) == d ==> RoundHalfEven(n, d) % 2 == 0
  {
    var q := n / d;
    var rem := n % d;
    assert n == q * d + rem;
    assert (q + 1) * d == q * d + d;
  }

  lemma MulMonotone(a: int, b: int, c: nat)
    requires a <= b
    ensures a * c <= b * c
  {
  }

  /** Rounding a quotient of at most `k` gives at most `k`. */
  lemma RoundHalfEvenAtMost(n: nat, d: nat, k: nat)
    requires d > 0 && n <= k * d
    ensures RoundHalfEven(n, d) <= k
  {
    var q := n / d;
    var rem := n % d;
    assert n == q * d + rem;
    if q >= k + 1 {
      MulMonotone(k + 1, q, d);
      assert false;
    }
    if q == k {
      assert rem == 0;
    }
  }

  /** The rounding of an exact percentage never exceeds 100 when resistant <= total. */
  lemma RoundedPercentBounded(resistant: nat, total: nat)
    requires total > 0 && resistant <= total
    ensures RoundHalfEven(100 * resistant, total) <= 100
  {
    MulMonotone(resistant, total, 100);
    RoundHalfEvenAtMost(100 * resistant, total, 100);
  }
}
