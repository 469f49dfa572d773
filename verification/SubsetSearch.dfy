/** combine_checksum and search_combine_checksum: the recursive enumeration of index combinations, overwriting
    the array b, in search of elements that add up to a given sum. */
module SubsetSearch {

  const MAX_LENGTH: int := 1024

  // ---------- what is searched for ----------

  /** Strictly decreasing positions below n. */
  predicate Descending(c: seq<int>, n: int) {
    InRange(c, n) && Decreasing(c)
  }

  predicate InRange(c: seq<int>, n: int) {
    forall i :: 0 <= i < |c| ==> 0 <= c[i] < n
  }

  predicate Decreasing(c: seq<int>) {
    forall i, j :: 0 <= i < j < |c| ==> c[i] > c[j]
  }

  /** The sum of the elements at the given positions. */
  function SumAt(a: seq<int>, c: seq<int>): int
    requires InRange(c, |a|)
  {
    if c == [] then 0 else SumAt(a, c[..|c| - 1]) + a[c[|c| - 1]]
  }

  /** The sum over a set of positions below n, taken position by position. */
  function SetSum(a: seq<int>, s: set<int>, n: nat): int
    requires n <= |a|
  {
    if n == 0 then 0 else (if n - 1 in s then a[n - 1] else 0) + SetSum(a, s, n - 1)
  }

  /** A non-empty set of positions below n whose elements add up to sum. */
  ghost predicate Solves(a: seq<int>, n: nat, sum: int, s: set<int>)
    requires n <= |a|
  {
    s != {} && (forall i :: i in s ==> 0 <= i < n) && SetSum(a, s, n) == sum
  }

  function Elements(c: seq<int>): set<int> {
    set x | x in c
  }

  /** The members of s below n, highest first. */
  function Listing(s: set<int>, n: nat): (c: seq<int>)
  {
    if n == 0 then [] else (if n - 1 in s then [n - 1] else []) + Listing(s, n - 1)
  }

  lemma {:induction false} SumAtCons(a: seq<int>, x: int, c: seq<int>)
    requires 0 <= x < |a| && InRange(c, |a|)
    ensures SumAt(a, [x] + c) == a[x] + SumAt(a, c)
    decreases |c|
  {
    var d := [x] + c;
    if c == [] {
      assert d[..|d| - 1] == [];
    } else {
      assert d[..|d| - 1] == [x] + c[..|c| - 1];
      SumAtCons(a, x, c[..|c| - 1]);
    }
  }

  lemma {:induction false} ListingIsDescending(s: set<int>, n: nat)
    ensures Descending(Listing(s, n), n)
  {
    if n > 0 { ListingIsDescending(s, n - 1); }
  }

  lemma {:induction false} ListingMembers(s: set<int>, n: nat)
    ensures forall x :: x in Listing(s, n) <==> x in s && 0 <= x < n
  {
    if n > 0 { ListingMembers(s, n - 1); }
  }

  lemma InRangeWider(c: seq<int>, n: int, n': int)
    requires InRange(c, n) && n <= n'
    ensures InRange(c, n')
  {}

  lemma {:induction false} ListingSum(a: seq<int>, s: set<int>, n: nat)
    requires n <= |a|
    ensures InRange(Listing(s, n), |a|) && SumAt(a, Listing(s, n)) == SetSum(a, s, n)
  {
    if n > 0 {
      ListingSum(a, s, n - 1);
      ListingSumStep(a, s, n);
    }
  }

  lemma ListingSumStep(a: seq<int>, s: set<int>, n: nat)
    requires 0 < n <= |a|
    requires InRange(Listing(s, n - 1), |a|) && SumAt(a, Listing(s, n - 1)) == SetSum(a, s, n - 1)
    ensures InRange(Listing(s, n), |a|) && SumAt(a, Listing(s, n)) == SetSum(a, s, n)
  {
    ListingIsDescending(s, n);
    ListingStep(s, n);
    InRangeWider(Listing(s, n), n, |a|);
    hide SumAt, InRange, Decreasing, Listing;
    if n - 1 in s {
      SumAtCons(a, n - 1, Listing(s, n - 1));
    }
  }

  lemma ListingStep(s: set<int>, n: nat)
    requires n > 0
    ensures Listing(s, n) == if n - 1 in s then [n - 1] + Listing(s, n - 1) else Listing(s, n - 1)
  {}

  lemma TailOf(c: seq<int>, n: nat)
    requires Descending(c, n) && c != [] && c[0] == n - 1
    ensures Descending(c[1..], n - 1) && c == [n - 1] + c[1..]
    ensures Elements(c) == Elements(c[1..]) + {n - 1} && n - 1 !in Elements(c[1..])
  {}

  lemma BelowTop(c: seq<int>, n: nat)
    requires Descending(c, n) && 0 < n && (c == [] || c[0] != n - 1)
    ensures Descending(c, n - 1) && n - 1 !in Elements(c)
  {}

  lemma RoomForFirst(c: seq<int>, n: nat)
    requires InRange(c, n)
    ensures c != [] ==> n > 0
  {
    if c != [] {
      var first := c[0];
    }
  }

  lemma ListingOfNone()
    ensures Listing(Elements([]), 0) == [] && |Elements([])| == 0
  {}

  lemma ListedTop(c: seq<int>, n: nat)
    requires Descending(c, n) && c != [] && c[0] == n - 1 && n > 0
    requires Listing(Elements(c[1..]), n - 1) == c[1..]
    ensures Listing(Elements(c), n) == c
  {
    var s := Elements(c[1..]);
    TailOf(c, n);
    ListingIgnores(s, n - 1, n - 1);
    hide Elements, Descending;
    ListingStep(s + {n - 1}, n);
  }

  /** A strictly decreasing sequence is the listing of its set of elements. */
  lemma {:induction false} ListingOfElements(c: seq<int>, n: nat)
    requires Descending(c, n)
    ensures Listing(Elements(c), n) == c
    decreases n
  {
    RoomForFirst(c, n);
    if n == 0 {
      ListingOfNone();
    } else if c != [] && c[0] == n - 1 {
      TailOf(c, n);
      hide *;
      ListingOfElements(c[1..], n - 1);
      ListedTop(c, n);
    } else {
      BelowTop(c, n);
      hide Descending, Elements;
      ListingOfElements(c, n - 1);
    }
  }

  lemma {:induction false} CountElements(c: seq<int>, n: nat)
    requires Descending(c, n)
    ensures |Elements(c)| == |c|
    decreases |c|
  {
    if c != [] {
      var d := c[1..];
      assert Elements(c) == Elements(d) + {c[0]};
      assert c[0] !in Elements(d);
      CountElements(d, n);
    }
  }

  lemma {:induction false} ListingIgnores(s: set<int>, x: int, n: nat)
    requires n <= x
    ensures Listing(s + {x}, n) == Listing(s, n)
  {
    if n > 0 { ListingIgnores(s, x, n - 1); }
  }

  /** Searching strictly decreasing position sequences is searching sets of positions. */
  lemma DescendingSolves(a: seq<int>, n: nat, sum: int, c: seq<int>)
    requires n <= |a| && Descending(c, n) && c != []
    ensures Solves(a, n, sum, Elements(c)) <==> SumAt(a, c) == sum
    ensures |Elements(c)| == |c|
  {
    ListingOfElements(c, n);
    CountElements(c, n);
    ListingSum(a, Elements(c), n);
    assert c[0] in Elements(c);
  }

  lemma SolutionListed(a: seq<int>, n: nat, sum: int, s: set<int>)
    requires n <= |a| && Solves(a, n, sum, s)
    ensures var c := Listing(s, n); c != [] && Descending(c, n) && SumAt(a, c) == sum && |c| == |s|
  {
    ListingSum(a, s, n);
    ListingIsDescending(s, n);
    ListingMembers(s, n);
    var c := Listing(s, n);
    assert Elements(c) == s by {
      forall x ensures x in Elements(c) <==> x in s {
        assert x in c <==> x in s && 0 <= x < n;
      }
    }
    CountElements(c, n);
    var x :| x in s;
    assert x in c;
  }

  // ---------- the search ----------

  /** The positions chosen so far: b[M-1] down to b[m]. */
  function Chosen(b: seq<int>, m: int, M: int): (c: seq<int>)
    requires 0 <= m <= M <= |b|
    ensures |c| == M - m
  {
    seq(M - m, k requires 0 <= k < M - m => b[M - 1 - k])
  }

  /** No way to complete the chosen positions with m more below n adds up to sum. */
  ghost predicate Exhausted(a: seq<int>, prefix: seq<int>, m: nat, n: int, sum: int)
    requires n <= |a| && Descending(prefix, |a|)
  {
    forall c :: |c| == m && Descending(c, n) ==> SumAt(a, prefix + c) != sum
  }

  ghost predicate PrefixHits(a: seq<int>, all: seq<int>, k: int, sum: int)
    requires InRange(all, |a|)
  {
    0 < k <= |all| && SumAt(a, all[..k]) == sum
  }

  /** First pass of the innermost test: does some initial stretch of the chosen positions add up? */
  method AnyPrefix(a: seq<int>, b: array<int>, M: int, sum: int) returns (su: bool)
    requires 0 < M <= b.Length && InRange(Chosen(b[..], 0, M), |a|)
    ensures su <==> exists k :: PrefixHits(a, Chosen(b[..], 0, M), k, sum)
  {
    ghost var all := Chosen(b[..], 0, M);
    var s, j := 0, M - 1;
    su := false;
    while j >= 0
      invariant -1 <= j < M
      invariant s == SumAt(a, all[..M - 1 - j])
      invariant su ==> exists k :: PrefixHits(a, all, k, sum)
      invariant !su ==> forall k :: k < M - j ==> !PrefixHits(a, all, k, sum)
    {
      hide SumAt, InRange;
      SumAtSnoc(a, all, M - 1 - j);
      s := s + a[b[j]];
      if s == sum {
        assert PrefixHits(a, all, M - j, sum);
        su := true;
      }
      j := j - 1;
    }
    assert Chosen(b[..], 0, M) == all;
  }

  /** Second pass: the shortest such stretch becomes the result. */
  method CollectPrefix(a: seq<int>, b: array<int>, M: int, sum: int, ghost hit: int) returns (out: seq<int>)
    requires 0 < M <= b.Length && InRange(Chosen(b[..], 0, M), |a|)
    requires PrefixHits(a, Chosen(b[..], 0, M), hit, sum)
    ensures out != [] && out <= Chosen(b[..], 0, M) && SumAt(a, out) == sum
  {
    ghost var all := Chosen(b[..], 0, M);
    var t, j := 0, M - 1;
    out := [];
    while j >= 0
      invariant -1 <= j < M && M - 1 - j < hit
      invariant out == all[..M - 1 - j] && t == SumAt(a, all[..M - 1 - j])
    {
      hide SumAt, InRange;
      SumAtSnoc(a, all, M - 1 - j);
      t := t + a[b[j]];
      out := out + [b[j]];
      if t == sum {
        return;
      }
      j := j - 1;
    }
  }

  lemma SumAtSnoc(a: seq<int>, c: seq<int>, k: nat)
    requires k < |c| && InRange(c, |a|)
    ensures c[..k + 1] == c[..k] + [c[k]] && 0 <= c[k] < |a|
    ensures SumAt(a, c[..k + 1]) == SumAt(a, c[..k]) + a[c[k]]
  {
    assert c[..k + 1][..k] == c[..k];
  }

  lemma ChosenExtends(b: seq<int>, b': seq<int>, m: int, M: int, i: int)
    requires 0 < m <= M <= |b| == |b'|
    requires b'[m - 1] == i - 1 && forall k :: m <= k < |b| ==> b'[k] == b[k]
    ensures Chosen(b', m - 1, M) == Chosen(b, m, M) + [i - 1]
  {}

  lemma DescendingExtends(c: seq<int>, N: int, n: int, i: int)
    requires Descending(c, N) && (forall k :: 0 <= k < |c| ==> c[k] >= n) && 0 < i <= n <= N
    ensures Descending(c + [i - 1], N)
  {}

  /** Everything below i - 1 being exhausted behind i - 1 extends what is exhausted from i down to i - 1. */
  lemma ExhaustedExtends(a: seq<int>, prefix: seq<int>, m: nat, n: int, i: int, sum: int, c: seq<int>)
    requires 0 < m && 0 < i <= n <= |a|
    requires Descending(prefix, |a|) && Descending(prefix + [i - 1], |a|)
    requires Exhausted(a, prefix + [i - 1], m - 1, i - 1, sum)
    requires |c| == m && Descending(c, n) && c[0] == i - 1
    ensures SumAt(a, prefix + c) != sum
  {
    var d := c[1..];
    assert Descending(d, i - 1);
    assert prefix + c == prefix + [i - 1] + d;
  }

  /** combine_checksum: with b[m..M) already chosen, try every choice of m more positions below n (all positions
      are below N). A non-positive m only runs through the loop without doing anything. */
  method Combine(a: seq<int>, n: int, m: int, b: array<int>, M: int, sum: int, out: seq<int>, ghost N: nat)
    returns (found: bool, out': seq<int>)
    requires m <= M <= b.Length && 0 <= n <= N <= |a|
    requires 0 < m ==> Descending(Chosen(b[..], m, M), N) && forall k :: m <= k < M ==> b[k] >= n
    modifies b
    ensures forall k :: 0 <= k < b.Length && m <= k ==> b[k] == old(b[k])
    ensures !found ==> out' == out
    ensures found ==> 0 < |out'| <= M && Descending(out', N) && SumAt(a, out') == sum
    ensures m <= 0 ==> !found
    ensures !found && 0 < m ==> Exhausted(a, Chosen(old(b[..]), m, M), m, n, sum)
    decreases n
  {
    out' := out;
    if m <= 0 { return false, out; }
    ghost var before, prefix := b[..], Chosen(b[..], m, M);
    var i := n;
    while i >= m
      invariant m - 1 <= i <= n || i == n
      invariant forall k :: m <= k < b.Length ==> b[k] == before[k]
      invariant ExhaustedFrom(a, prefix, m, n, i, sum)
      invariant out' == out
    {
      b[m - 1] := i - 1;
      ChosenExtends(before, b[..], m, M, i);
      DescendingExtends(prefix, N, n, i);
      hide SumAt, Decreasing;
      if m > 1 {
        found, out' := Combine(a, i - 1, m - 1, b, M, sum, out', N);
        if found { return; }
      } else {
        found, out' := TestChosen(a, b, M, sum, out', i - 1);
        if found {
          PrefixDescends(Chosen(b[..], 0, M), out', N);
          return;
        }
      }
      ExhaustedFromExtends(a, prefix, m, n, i, sum);
      i := i - 1;
    }
    ShortOnes(a, prefix, m, n, i, sum);
    found := false;
  }

  /** The innermost test, all M positions chosen. */
  method TestChosen(a: seq<int>, b: array<int>, M: int, sum: int, out: seq<int>, ghost n: int)
    returns (found: bool, out': seq<int>)
    requires 0 < M <= b.Length && Descending(Chosen(b[..], 0, M), |a|) && n <= |a|
    ensures found ==> out' != [] && out' <= Chosen(b[..], 0, M) && SumAt(a, out') == sum
    ensures !found ==> out' == out && Exhausted(a, Chosen(b[..], 0, M), 0, n, sum)
  {
    found := AnyPrefix(a, b, M, sum);
    out' := out;
    ghost var all := Chosen(b[..], 0, M);
    if found {
      ghost var hit :| PrefixHits(a, all, hit, sum);
      out' := CollectPrefix(a, b, M, sum, hit);
    } else {
      WholeExhausted(a, all, n, sum);
    }
  }

  /** What the loop has ruled out: completions whose first position is i or more. */
  ghost predicate ExhaustedFrom(a: seq<int>, prefix: seq<int>, m: nat, n: int, i: int, sum: int)
    requires n <= |a| && Descending(prefix, |a|)
  {
    forall c :: |c| == m && Descending(c, n) && 0 < m && c[0] >= i ==> SumAt(a, prefix + c) != sum
  }

  lemma ExhaustedFromExtends(a: seq<int>, prefix: seq<int>, m: nat, n: int, i: int, sum: int)
    requires 0 < m && 0 < i <= n <= |a|
    requires Descending(prefix, |a|) && Descending(prefix + [i - 1], |a|)
    requires Exhausted(a, prefix + [i - 1], m - 1, i - 1, sum)
    requires ExhaustedFrom(a, prefix, m, n, i, sum)
    ensures ExhaustedFrom(a, prefix, m, n, i - 1, sum)
  {
    forall c | |c| == m && Descending(c, n) && c[0] >= i - 1
      ensures SumAt(a, prefix + c) != sum
    {
      if c[0] == i - 1 {
        ExhaustedExtends(a, prefix, m, n, i, sum, c);
      }
    }
  }

  lemma WholeExhausted(a: seq<int>, all: seq<int>, n: int, sum: int)
    requires Descending(all, |a|) && n <= |a| && all != []
    requires forall k :: !PrefixHits(a, all, k, sum)
    ensures Exhausted(a, all, 0, n, sum)
  {
    assert !PrefixHits(a, all, |all|, sum);
    assert all[..|all|] == all;
    forall c | |c| == 0 && Descending(c, n)
      ensures SumAt(a, all + c) != sum
    {
      assert all + c == all;
    }
  }

  /** m strictly decreasing positions cannot start below m - 1. */
  lemma {:induction false} StartsHigh(c: seq<int>, n: int)
    requires Descending(c, n) && c != []
    ensures c[0] >= |c| - 1
    decreases |c|
  {
    if |c| > 1 {
      assert Descending(c[1..], c[0]);
      StartsHigh(c[1..], c[0]);
    }
  }

  lemma ShortOnes(a: seq<int>, prefix: seq<int>, m: nat, n: int, i: int, sum: int)
    requires 0 < m && n <= |a| && Descending(prefix, |a|) && i < m
    requires ExhaustedFrom(a, prefix, m, n, i, sum)
    ensures Exhausted(a, prefix, m, n, sum)
  {
    forall c | |c| == m && Descending(c, n)
      ensures SumAt(a, prefix + c) != sum
    {
      StartsHigh(c, n);
    }
  }

  lemma PrefixDescends(c: seq<int>, d: seq<int>, n: int)
    requires Descending(c, n) && d <= c
    ensures Descending(d, n) && |d| <= |c|
  {}

  /** No set of fewer than j positions adds up to sum. */
  ghost predicate NoneSmaller(a: seq<int>, n: nat, sum: int, j: int)
    requires n <= |a|
  {
    forall s :: Solves(a, n, sum, s) ==> |s| >= j
  }

  lemma LevelExhausted(a: seq<int>, n: nat, sum: int, j: nat)
    requires n <= |a| && NoneSmaller(a, n, sum, j)
    requires Exhausted(a, [], j, n, sum)
    ensures NoneSmaller(a, n, sum, j + 1)
  {
    forall s | Solves(a, n, sum, s)
      ensures |s| >= j + 1
    {
      SolutionListed(a, n, sum, s);
      assert [] + Listing(s, n) == Listing(s, n);
    }
  }

  lemma {:induction false} SubsetSize(s: set<int>, n: nat)
    requires forall x :: x in s ==> 0 <= x < n
    ensures |s| <= n
  {
    if n > 0 {
      SubsetSize(s - {n - 1}, n - 1);
    } else {
      assert forall x :: x in s ==> x < n;
      assert s == {};
    }
  }

  /** search_combine_checksum: sound, complete and minimal. For a length of at most 1024 it reports success exactly
      when some non-empty set of the first `length` elements adds up to sum; the result then lists such a set of the
      smallest possible size by strictly decreasing position. On failure the caller's vector is untouched. */
  method Search(a: seq<int>, length: int, sum: int, out: seq<int>) returns (found: bool, out': seq<int>)
    requires length <= |a|
    ensures !found ==> out' == out
    ensures length > MAX_LENGTH ==> !found
    ensures 0 <= length <= MAX_LENGTH ==> (found <==> exists s :: Solves(a, length, sum, s))
    ensures found ==> length > 0 && Descending(out', length) && |Elements(out')| == |out'|
    ensures found ==> length > 0 && Solves(a, length, sum, Elements(out'))
    ensures found ==> length > 0 && forall s :: Solves(a, length, sum, s) ==> |out'| <= |s|
  {
    out' := out;
    var b := new int[1024](_ => 0);
    if length > MAX_LENGTH { return false, out; }
    if length >= 0 { EmptyNeverSolves(a, length, sum); }
    var j := 1;
    while j <= length
      invariant 1 <= j && (length >= 0 ==> j <= length + 1 && NoneSmaller(a, length, sum, j))
      invariant out' == out
    {
      assert Chosen(b[..], j, j) == [];
      found, out' := Combine(a, length, j, b, j, sum, out', length);
      if found {
        DescendingSolves(a, length, sum, out');
        return;
      }
      LevelExhausted(a, length, sum, j);
      j := j + 1;
    }
    if length >= 0 {
      forall s | Solves(a, length, sum, s)
        ensures false
      {
        SubsetSize(s, length);
      }
    }
    found := false;
  }

  lemma EmptyNeverSolves(a: seq<int>, n: nat, sum: int)
    requires n <= |a|
    ensures NoneSmaller(a, n, sum, 1)
  {}
}
