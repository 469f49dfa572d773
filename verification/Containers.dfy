/** What sets and maps read element by element hold, for element orders that are strict weak orders. */
module Containers {
  import opened Packet

  /** What std::set and std::map ask of operator<. */
  ghost predicate StrictWeak(less: Less) {
    && (forall a :: !less(a, a))
    && Transitive(less)
    && (forall a, b, c :: less(a, b) ==> less(a, c) || less(c, b))
  }

  /** Neither comes before the other: one element to a set, one key to a map. */
  predicate Same(less: Less, a: Value, b: Value) {
    !less(a, b) && !less(b, a)
  }

  lemma SameIsTransitive(less: Less, a: Value, b: Value, c: Value)
    requires StrictWeak(less) && Same(less, a, b)
    ensures Same(less, b, a) && (Same(less, b, c) <==> Same(less, a, c))
    ensures less(b, c) <==> less(a, c)
    ensures less(c, b) <==> less(c, a)
  {}

  // ---------- sets ----------

  lemma ComesLater(less: Less, s: seq<Value>, v: Value, i: nat, j: nat)
    requires StrictWeak(less) && Ascending(less, s) && i < j < |s| && !less(s[i], v)
    ensures less(v, s[j])
  {
    assert less(s[i], s[j]);
  }

  /** An element is inserted if and only if the set holds none like it; the others stay. */
  lemma InsertHolds(less: Less, s: seq<Value>, v: Value, x: Value)
    requires StrictWeak(less) && Ascending(less, s)
    ensures x in Insert(less, s, v) <==> x in s || (x == v && forall y :: y in s ==> !Same(less, y, v))
  {
    var i := LowerBound(less, s, v);
    var r := Insert(less, s, v);
    var found := i < |s| && !less(v, s[i]);
    assert r == if found then s else s[..i] + [v] + s[i..];
    hide LowerBound, Insert;
    forall j | i < j < |s|
      ensures !Same(less, s[j], v)
    {
      ComesLater(less, s, v, i, j);
    }
    if found {
      assert s[i] in s && Same(less, s[i], v);
    } else {
      assert s == s[..i] + s[i..];
      assert x in r <==> x in s || x == v;
      assert forall y :: y in s ==> !Same(less, y, v);
    }
  }

  /** x is the first of its like among the elements read. */
  predicate FirstOfItsLike(less: Less, read: seq<Value>, x: Value) {
    exists i :: 0 <= i < |read| && read[i] == x && forall j :: 0 <= j < i ==> !Same(less, read[j], x)
  }

  lemma FirstSnoc(less: Less, read: seq<Value>, v: Value, x: Value)
    ensures FirstOfItsLike(less, read + [v], x) <==>
      FirstOfItsLike(less, read, x) || (x == v && forall j :: 0 <= j < |read| ==> !Same(less, read[j], x))
  {
    var all := read + [v];
    assert forall i :: 0 <= i < |read| ==> all[i] == read[i];
    assert all[|read|] == v;
  }

  /** Every element read has its like among the first ones, and they are what the set holds. */
  lemma {:induction false} LikeIsHeld(less: Less, read: seq<Value>, v: Value)
    requires StrictWeak(less)
    ensures (exists x :: FirstOfItsLike(less, read, x) && Same(less, x, v)) <==> exists j :: 0 <= j < |read| && Same(less, read[j], v)
  {
    if j :| 0 <= j < |read| && Same(less, read[j], v) {
      FindFirst(less, read, j, v);
    }
  }

  lemma {:induction false} FindFirst(less: Less, read: seq<Value>, j: nat, v: Value)
    requires StrictWeak(less) && j < |read| && Same(less, read[j], v)
    ensures exists x :: FirstOfItsLike(less, read, x) && Same(less, x, v)
    decreases j
  {
    if k :| 0 <= k < j && Same(less, read[k], read[j]) {
      SameIsTransitive(less, read[j], read[k], v);
      SameIsTransitive(less, read[k], read[j], v);
      FindFirst(less, read, k, v);
    } else {
      assert FirstOfItsLike(less, read, read[j]);
    }
  }

  /** A set that was read holds exactly the first of each group of like elements, whatever their order on the wire. */
  lemma {:induction false} SetKeepsTheFirst(less: Less, e: Ty, read: seq<Value>, x: Value)
    requires StrictWeak(less)
    ensures x in Collect(less, SetOf(e), read) <==> FirstOfItsLike(less, read, x)
  {
    if read != [] {
      var r, v := read[..|read| - 1], read[|read| - 1];
      assert read == r + [v];
      FirstSnoc(less, r, v, x);
      var s := Collect(less, SetOf(e), r);
      SetIsAscending(less, e, r);
      InsertHolds(less, s, v, x);
      SetKeepsTheFirst(less, e, r, x);
      forall y
        ensures y in s <==> FirstOfItsLike(less, r, y)
      {
        SetKeepsTheFirst(less, e, r, y);
      }
      LikeIsHeld(less, r, v);
      hide Insert, FirstOfItsLike, Ascending, StrictWeak;
      assert (forall y :: y in s ==> !Same(less, y, v)) <==> forall j :: 0 <= j < |r| ==> !Same(less, r[j], v);
    }
  }

  lemma {:induction false} SetIsAscending(less: Less, e: Ty, read: seq<Value>)
    requires StrictWeak(less)
    ensures Ascending(less, Collect(less, SetOf(e), read))
  {
    hide Insert;
    if read != [] {
      SetIsAscending(less, e, read[..|read| - 1]);
      InsertKeeps(less, Collect(less, SetOf(e), read[..|read| - 1]), read[|read| - 1]);
    }
  }

  // ---------- maps ----------

  predicate Entries(s: seq<Value>) {
    forall i :: 0 <= i < |s| ==> s[i].Two?
  }

  /** The map binds a key like k to x. */
  predicate Binds(less: Less, s: seq<Value>, k: Value, x: Value)
    requires Entries(s)
  {
    exists i :: 0 <= i < |s| && Same(less, Key(s[i]), k) && s[i].second == x
  }

  lemma NotBoth(less: Less, s: seq<Value>, k: Value, i: nat, j: nat)
    requires StrictWeak(less) && KeysAscending(less, s) && i < j < |s|
    ensures !(Same(less, Key(s[i]), k) && Same(less, Key(s[j]), k))
  {
    assert less(Key(s[i]), Key(s[j]));
  }

  lemma AssignedAt(less: Less, s: seq<Value>, v: Value) returns (i: nat, replaced: bool)
    requires StrictWeak(less) && KeysAscending(less, s) && Entries(s) && v.Two?
    ensures i <= |s| && (replaced ==> i < |s| && Same(less, Key(s[i]), v.first))
    ensures Assign(less, s, v) == if replaced then s[i := Two(Key(s[i]), v.second)] else s[..i] + [v] + s[i..]
    ensures Entries(Assign(less, s, v)) && KeysAscending(less, Assign(less, s, v))
  {
    i := LowerBound(less, Keys(s), v.first);
    replaced := i < |s| && !less(v.first, Key(s[i]));
    AssignOrdered(less, s, v);
  }

  /** Assigning gives the key its new value and leaves all others alone. */
  lemma AssignBinds(less: Less, s: seq<Value>, v: Value, k: Value, x: Value)
    requires StrictWeak(less) && KeysAscending(less, s) && Entries(s) && v.Two?
    ensures Entries(Assign(less, s, v))
    ensures Binds(less, Assign(less, s, v), k, x) <==> if Same(less, v.first, k) then x == v.second else Binds(less, s, k, x)
  {
    var i, replaced := AssignedAt(less, s, v);
    var r := Assign(less, s, v);
    hide Assign, KeysAscending;
    if replaced {
      SameIsTransitive(less, Key(s[i]), v.first, k);
    }
    assert Same(less, Key(r[i]), k) <==> Same(less, v.first, k);
    if Same(less, v.first, k) {
      forall j | 0 <= j < |r| && j != i
        ensures !Same(less, Key(r[j]), k)
      {
        NotBoth(less, r, k, if i < j then i else j, if i < j then j else i);
      }
    } else {
      OthersStay(less, s, v, k, x, i, replaced);
    }
  }

  lemma OthersStay(less: Less, s: seq<Value>, v: Value, k: Value, x: Value, i: nat, replaced: bool)
    requires Entries(s) && v.Two? && i <= |s| && (replaced ==> i < |s| && !Same(less, Key(s[i]), k)) && !Same(less, v.first, k)
    ensures var r := if replaced then s[i := Two(Key(s[i]), v.second)] else s[..i] + [v] + s[i..];
      Entries(r) && (Binds(less, r, k, x) <==> Binds(less, s, k, x))
  {
    var r := if replaced then s[i := Two(Key(s[i]), v.second)] else s[..i] + [v] + s[i..];
    var shift := if replaced then 0 else 1;
    assert forall j :: 0 <= j < |s| && (j != i || !replaced) ==> r[if j < i then j else j + shift] == s[j];
    if Binds(less, s, k, x) {
      var j :| 0 <= j < |s| && Same(less, Key(s[j]), k) && s[j].second == x;
      assert r[if j < i then j else j + shift] == s[j];
    }
  }

  /** The last entry read whose key is like k has the value x. */
  predicate LastOfItsKey(less: Less, read: seq<Value>, k: Value, x: Value)
    requires Entries(read)
  {
    exists i :: 0 <= i < |read| && Same(less, read[i].first, k) && read[i].second == x
      && forall j :: i < j < |read| ==> !Same(less, read[j].first, k)
  }

  lemma LastSnoc(less: Less, read: seq<Value>, v: Value, k: Value, x: Value)
    requires Entries(read) && v.Two?
    ensures Entries(read + [v])
    ensures LastOfItsKey(less, read + [v], k, x) <==> if Same(less, v.first, k) then x == v.second else LastOfItsKey(less, read, k, x)
  {
    var all := read + [v];
    assert forall i :: 0 <= i < |read| ==> all[i] == read[i];
    assert all[|read|] == v;
  }

  lemma {:induction false} MapIsAscending(less: Less, e: Ty, read: seq<Value>)
    requires StrictWeak(less) && Entries(read)
    ensures var s := Collect(less, MapOf(e), read); Entries(s) && KeysAscending(less, s)
  {
    hide Assign, KeysAscending;
    if read == [] {
      NothingAscends(less);
    } else {
      var r, v := read[..|read| - 1], read[|read| - 1];
      MapIsAscending(less, e, r);
      var _, _ := AssignedAt(less, Collect(less, MapOf(e), r), v);
    }
  }

  /** A map that was read binds every key to the value that came last for it. */
  lemma {:induction false} MapKeepsTheLast(less: Less, e: Ty, read: seq<Value>, k: Value, x: Value)
    requires StrictWeak(less) && Entries(read)
    ensures Entries(Collect(less, MapOf(e), read))
    ensures Binds(less, Collect(less, MapOf(e), read), k, x) <==> LastOfItsKey(less, read, k, x)
  {
    if read != [] {
      var r, v := read[..|read| - 1], read[|read| - 1];
      assert read == r + [v];
      MapIsAscending(less, e, r);
      MapKeepsTheLast(less, e, r, k, x);
      LastSnoc(less, r, v, k, x);
      AssignBinds(less, Collect(less, MapOf(e), r), v, k, x);
      hide Assign, Binds, LastOfItsKey, KeysAscending, StrictWeak;
    }
  }
}
