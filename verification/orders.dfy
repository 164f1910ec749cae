/** Sorted lists of hashes: what database iterators and sorted key lists deliver. */
module Orders {
  predicate Ascending(s: seq<nat>) {
    forall i, j :: 0 <= i < j < |s| ==> s[i] < s[j]
  }

  ghost predicate Lists(s: seq<nat>, keys: set<nat>) {
    Ascending(s) && forall k :: k in s <==> k in keys
  }

  method Least(keys: set<nat>) returns (k: nat)
    requires keys != {}
    ensures k in keys && forall j :: j in keys ==> k <= j
    decreases keys
  {
    k :| k in keys;
    var rest := keys - {k};
    if rest == {} {
      assert keys == {k};
    } else {
      var m := Least(rest);
      assert forall j :: j in keys ==> j == k || j in rest;
      if m < k { k := m; }
    }
  }

  method Sort(keys: set<nat>) returns (s: seq<nat>)
    ensures Lists(s, keys)
    decreases keys
  {
    if keys == {} {
      s := [];
    } else {
      var k := Least(keys);
      var rest := Sort(keys - {k});
      s := [k] + rest;
      assert forall i :: 0 <= i < |rest| ==> rest[i] in rest;
    }
  }

  /** A set of hashes is listed in ascending order in one way only. */
  lemma {:induction false} Unique(s: seq<nat>, t: seq<nat>, keys: set<nat>)
    requires Lists(s, keys) && Lists(t, keys)
    ensures s == t
    decreases |s|
  {
    if s == [] {
      assert forall i :: 0 <= i < |t| ==> t[i] in keys;
    } else {
      assert s[0] in keys && s[0] in t;
      assert t[0] in keys && t[0] in s;
      assert s[0] == t[0];
      forall k ensures k in s[1..] <==> k in keys - {s[0]} {
        assert s == [s[0]] + s[1..];
      }
      forall k ensures k in t[1..] <==> k in keys - {s[0]} {
        assert t == [t[0]] + t[1..];
      }
      Unique(s[1..], t[1..], keys - {s[0]});
    }
  }
}
