/** obj_map and obj_ptr_map (common_template.h): an ordered map whose addData never overwrites, with the in-order scans
    eraseValue and getKey. Entries are kept in ascending key order, as the underlying std::map keeps them. */
module ObjMap {
  import opened Bytes
  import opened GateModel

  type Entry<V> = (nat, V)

  predicate Ascending<V>(s: seq<Entry<V>>) {
    forall i, j :: 0 <= i < j < |s| ==> s[i].0 < s[j].0
  }

  predicate HasKey<V>(s: seq<Entry<V>>, k: nat) {
    exists i :: 0 <= i < |s| && s[i].0 == k
  }

  /** Ascending entries that list exactly the pairs of m. */
  ghost predicate Lists<V(!new)>(s: seq<Entry<V>>, m: map<nat, V>) {
    && Ascending(s)
    && (forall i :: 0 <= i < |s| ==> s[i].0 in m && m[s[i].0] == s[i].1)
    && (forall k :: k in m ==> HasKey(s, k))
  }

  lemma FirstIsSmallest<V(!new)>(s: seq<Entry<V>>, m: map<nat, V>)
    requires Lists(s, m)
    ensures s == [] <==> m == map[]
    ensures s != [] ==> s[0].0 in m && m[s[0].0] == s[0].1 && forall k :: k in m ==> s[0].0 <= k
  {
    forall k | k in m
      ensures s != [] && s[0].0 <= k
    {
      assert HasKey(s, k);
    }
  }

  lemma TailLists<V(!new)>(s: seq<Entry<V>>, m: map<nat, V>)
    requires Lists(s, m) && s != []
    ensures Lists(s[1..], m - {s[0].0})
  {
    var r, n := s[1..], m - {s[0].0};
    forall i, j | 0 <= i < j < |r|
      ensures r[i].0 < r[j].0
    {
      assert s[i + 1].0 < s[j + 1].0;
    }
    forall i | 0 <= i < |r|
      ensures r[i].0 in n && n[r[i].0] == r[i].1
    {
      assert s[0].0 < s[i + 1].0;
    }
    forall k | k in n
      ensures HasKey(r, k)
    {
      assert HasKey(s, k);
      var i :| 0 <= i < |s| && s[i].0 == k;
      assert r[i - 1] == s[i];
    }
  }

  /** The entries are determined by the map. */
  lemma {:induction false} ListsOnce<V(!new)>(s: seq<Entry<V>>, r: seq<Entry<V>>, m: map<nat, V>)
    requires Lists(s, m) && Lists(r, m)
    ensures s == r
    decreases |s|
  {
    hide Lists;
    FirstIsSmallest(s, m);
    FirstIsSmallest(r, m);
    if s != [] {
      assert s[0] == r[0];
      TailLists(s, m);
      TailLists(r, m);
      ListsOnce(s[1..], r[1..], m - {s[0].0});
      assert s == [s[0]] + s[1..] && r == [r[0]] + r[1..];
    }
  }

  lemma RemovedHas<V>(s: seq<Entry<V>>, i: nat, k: nat)
    requires i < |s| && HasKey(s, k) && k != s[i].0
    ensures HasKey(s[..i] + s[i + 1..], k)
  {
    var j :| 0 <= j < |s| && s[j].0 == k;
    assert (s[..i] + s[i + 1..])[if j < i then j else j - 1] == s[j];
  }

  lemma RemovedAscends<V>(s: seq<Entry<V>>, i: nat)
    requires Ascending(s) && i < |s|
    ensures Ascending(s[..i] + s[i + 1..])
    ensures var r := s[..i] + s[i + 1..]; forall j :: 0 <= j < |r| ==> r[j].0 != s[i].0
  {
    var r := s[..i] + s[i + 1..];
    assert forall j :: 0 <= j < |r| ==> r[j] == s[if j < i then j else j + 1];
  }

  lemma Removed<V(!new)>(s: seq<Entry<V>>, m: map<nat, V>, i: nat)
    requires Lists(s, m) && i < |s|
    ensures Lists(s[..i] + s[i + 1..], m - {s[i].0})
  {
    var r := s[..i] + s[i + 1..];
    RemovedAscends(s, i);
    hide Ascending, HasKey;
    assert forall j :: 0 <= j < |r| ==> r[j] == s[if j < i then j else j + 1];
    forall k | k in m && k != s[i].0
      ensures HasKey(r, k)
    {
      RemovedHas(s, i, k);
    }
  }

  lemma InsertedAscends<V>(s: seq<Entry<V>>, i: nat, k: nat, v: V)
    requires Ascending(s) && i <= |s|
    requires (forall j :: 0 <= j < i ==> s[j].0 < k) && (forall j :: i <= j < |s| ==> k < s[j].0)
    ensures Ascending(s[..i] + [(k, v)] + s[i..])
  {
    var r := s[..i] + [(k, v)] + s[i..];
    assert forall j :: 0 <= j < |r| ==> r[j] == if j < i then s[j] else if j == i then (k, v) else s[j - 1];
  }

  lemma InsertedHas<V>(s: seq<Entry<V>>, i: nat, k: nat, v: V, x: nat)
    requires i <= |s| && (x == k || HasKey(s, x))
    ensures HasKey(s[..i] + [(k, v)] + s[i..], x)
  {
    var r := s[..i] + [(k, v)] + s[i..];
    if x == k {
      assert r[i].0 == x;
    } else {
      var j :| 0 <= j < |s| && s[j].0 == x;
      assert r[if j < i then j else j + 1].0 == x;
    }
  }

  lemma InsertedPairs<V(!new)>(s: seq<Entry<V>>, m: map<nat, V>, i: nat, k: nat, v: V)
    requires i <= |s| && k !in m && forall j :: 0 <= j < |s| ==> s[j].0 in m && m[s[j].0] == s[j].1
    ensures var r, n := s[..i] + [(k, v)] + s[i..], m[k := v]; forall j :: 0 <= j < |r| ==> r[j].0 in n && n[r[j].0] == r[j].1
  {
    var r := s[..i] + [(k, v)] + s[i..];
    assert forall j :: 0 <= j < |r| ==> r[j] == if j < i then s[j] else if j == i then (k, v) else s[j - 1];
  }

  lemma Inserted<V(!new)>(s: seq<Entry<V>>, m: map<nat, V>, i: nat, k: nat, v: V)
    requires Lists(s, m) && i <= |s| && k !in m
    requires (forall j :: 0 <= j < i ==> s[j].0 < k) && (forall j :: i <= j < |s| ==> k < s[j].0)
    ensures Lists(s[..i] + [(k, v)] + s[i..], m[k := v])
  {
    hide Ascending, HasKey;
    InsertedAscends(s, i, k, v);
    InsertedPairs(s, m, i, k, v);
    forall x | x in m[k := v]
      ensures HasKey(s[..i] + [(k, v)] + s[i..], x)
    {
      InsertedHas(s, i, k, v, x);
    }
  }

  class ObjMap<V(!new, ==)> {
    var entries: seq<Entry<V>>
    ghost var contents: map<nat, V>

    ghost predicate Valid()
      reads this
    {
      Lists(entries, contents)
    }

    constructor ()
      ensures Valid() && contents == map[]
    {
      entries := [];
      contents := map[];
    }

    /** find: the position of the key, or of the first larger one. */
    method Find(k: nat) returns (i: nat)
      requires Valid()
      ensures i <= |entries|
      ensures (forall j :: 0 <= j < i ==> entries[j].0 < k) && (forall j :: i <= j < |entries| ==> k <= entries[j].0)
      ensures (i < |entries| && entries[i].0 == k) <==> k in contents
      ensures i < |entries| && entries[i].0 == k ==> contents[k] == entries[i].1
    {
      i := 0;
      while i < |entries| && entries[i].0 < k
        invariant i <= |entries|
        invariant forall j :: 0 <= j < i ==> entries[j].0 < k
      {
        i := i + 1;
      }
    }

    /** getData and hasData. */
    method GetData(k: nat) returns (v: Option<V>)
      requires Valid()
      ensures v == if k in contents then Some(contents[k]) else None
    {
      var i := Find(k);
      if i < |entries| && entries[i].0 == k {
        return Some(entries[i].1);
      }
      return None;
    }

    method AddData(k: nat, v: V) returns (added: bool)
      requires Valid()
      modifies this
      ensures Valid() && contents == GateModel.AddData(old(contents), k, v)
      ensures added <==> k !in old(contents)
    {
      var i := Find(k);
      if i < |entries| && entries[i].0 == k {
        return false;
      }
      Inserted(entries, contents, i, k, v);
      contents := contents[k := v];
      entries := entries[..i] + [(k, v)] + entries[i..];
      return true;
    }

    /** eraseData, with the erased value. */
    method EraseData(k: nat) returns (v: Option<V>)
      requires Valid()
      modifies this
      ensures Valid() && contents == old(contents) - {k}
      ensures v == if k in old(contents) then Some(old(contents)[k]) else None
    {
      var i := Find(k);
      if i < |entries| && entries[i].0 == k {
        v := Some(entries[i].1);
        Removed(entries, contents, i);
        contents := contents - {k};
        entries := entries[..i] + entries[i + 1..];
      } else {
        v := None;
      }
    }

    /** The smallest key with the value. */
    method GetKey(v: V) returns (k: Option<nat>)
      requires Valid()
      ensures k == None <==> forall x :: x in contents ==> contents[x] != v
      ensures k.Some? ==> k.value in contents && contents[k.value] == v
      ensures k.Some? ==> forall x :: x in contents && contents[x] == v ==> k.value <= x
    {
      var i := 0;
      while i < |entries|
        invariant 0 <= i <= |entries|
        invariant forall j :: 0 <= j < i ==> entries[j].1 != v
      {
        if entries[i].1 == v {
          return Some(entries[i].0);
        }
        i := i + 1;
      }
      return None;
    }

    /** Drops every entry with the value, moving on to the entry after an erased one. */
    method EraseValue(v: V)
      requires Valid()
      modifies this
      ensures Valid() && contents == GateModel.EraseValue(old(contents), v)
    {
      ghost var before := contents;
      var i := 0;
      while i < |entries|
        invariant 0 <= i <= |entries| && Valid()
        invariant forall j :: 0 <= j < i ==> entries[j].1 != v
        invariant forall k :: k in contents ==> k in before && contents[k] == before[k]
        invariant forall k :: k in before && before[k] != v ==> k in contents
        decreases |entries| - i
      {
        if entries[i].1 == v {
          Removed(entries, contents, i);
          contents := contents - {entries[i].0};
          entries := entries[..i] + entries[i + 1..];
        } else {
          i := i + 1;
        }
      }
      assert contents == GateModel.EraseValue(before, v);
    }
  }
}
