/**
 * Collecting file names into a dictionary keyed by the number in the name,
 * the loop `mapping.setdefault(key, []).append(os.path.join(folder, f))`
 * that merge_by_number.py and collect_lecture_files both run. Python's dict
 * keeps its keys in first-insertion order; `order` records that order.
 */
module Grouping {
  import opened Wrappers
  import opened Text
  import opened Sorting

  /** Some name in `names` is recognised with key `k`. */
  predicate HasKey(names: seq<string>, keyOf: string -> Option<string>, k: string)
  {
    exists i :: 0 <= i < |names| && keyOf(names[i]) == Some(k)
  }

  /** The dict's keys after scanning `names`: each recognised key once, in order of first occurrence. */
  function KeysSeen(names: seq<string>, keyOf: string -> Option<string>): seq<string>
    decreases |names|
  {
    if names == [] then []
    else
      var seen := KeysSeen(names[..|names| - 1], keyOf);
      match keyOf(names[|names| - 1])
      case None => seen
      case Some(k) => if k in seen then seen else seen + [k]
  }

  /** The dict's list for key `k` after scanning `names`: the joined paths of the names with key `k`, in scan order. */
  function PathsWithKey(folder: string, names: seq<string>, keyOf: string -> Option<string>, k: string): seq<string>
    decreases |names|
  {
    if names == [] then []
    else
      var last := names[|names| - 1];
      PathsWithKey(folder, names[..|names| - 1], keyOf, k) + (if keyOf(last) == Some(k) then [Join(folder, last)] else [])
  }

  lemma HasKeyOfPrefix(names: seq<string>, keyOf: string -> Option<string>, k: string)
    requires names != []
    ensures HasKey(names, keyOf, k) <==> HasKey(names[..|names| - 1], keyOf, k) || keyOf(names[|names| - 1]) == Some(k)
  {
    var init := names[..|names| - 1];
    if HasKey(names, keyOf, k) && keyOf(names[|names| - 1]) != Some(k) {
      var i :| 0 <= i < |names| && keyOf(names[i]) == Some(k);
      assert init[i] == names[i];
    }
    if HasKey(init, keyOf, k) {
      var i :| 0 <= i < |init| && keyOf(init[i]) == Some(k);
      assert names[i] == init[i];
    }
  }

  /** A key is in the dict exactly when some scanned name carries it. */
  lemma {:induction false} KeysSeenMembership(names: seq<string>, keyOf: string -> Option<string>, k: string)
    ensures k in KeysSeen(names, keyOf) <==> HasKey(names, keyOf, k)
    decreases |names|
  {
    if names != [] {
      KeysSeenMembership(names[..|names| - 1], keyOf, k);
      HasKeyOfPrefix(names, keyOf, k);
    }
  }

  /** The dict holds each key once. */
  lemma {:induction false} KeysSeenDistinct(names: seq<string>, keyOf: string -> Option<string>)
    ensures Distinct(KeysSeen(names, keyOf))
    decreases |names|
  {
    if names != [] {
      KeysSeenDistinct(names[..|names| - 1], keyOf);
    }
  }

  /** A path is in the list for `k` exactly when it is the joined path of a scanned name with key `k`. */
  lemma {:induction false} InPathsWithKey(folder: string, names: seq<string>, keyOf: string -> Option<string>, k: string, p: string)
    ensures p in PathsWithKey(folder, names, keyOf, k) <==>
            exists i :: 0 <= i < |names| && keyOf(names[i]) == Some(k) && p == Join(folder, names[i])
    decreases |names|
  {
    if names != [] {
      var init, last := names[..|names| - 1], names[|names| - 1];
      InPathsWithKey(folder, init, keyOf, k, p);
      if p in PathsWithKey(folder, init, keyOf, k) {
        var i :| 0 <= i < |init| && keyOf(init[i]) == Some(k) && p == Join(folder, init[i]);
        assert names[i] == init[i];
      }
      if exists i :: 0 <= i < |names| && keyOf(names[i]) == Some(k) && p == Join(folder, names[i]) {
        var i :| 0 <= i < |names| && keyOf(names[i]) == Some(k) && p == Join(folder, names[i]);
        if i < |init| { assert init[i] == names[i]; }
      }
    }
  }

  /** Every recognised name lands in exactly one key's list: the list of its own key. */
  lemma PathInExactlyOneGroup(folder: string, names: seq<string>, keyOf: string -> Option<string>, i: int, k: string)
    requires 0 <= i < |names| && keyOf(names[i]).Some?
    ensures Join(folder, names[i]) in PathsWithKey(folder, names, keyOf, k) <==> keyOf(names[i]) == Some(k)
  {
    var p := Join(folder, names[i]);
    InPathsWithKey(folder, names, keyOf, k, p);
    if p in PathsWithKey(folder, names, keyOf, k) {
      var j :| 0 <= j < |names| && keyOf(names[j]) == Some(k) && p == Join(folder, names[j]);
      JoinInjective(folder, names[i], names[j]);
    }
  }

  /** Scanning names in ascending order gives every key's list in ascending order. */
  lemma {:induction false} PathsWithKeySorted(folder: string, names: seq<string>, keyOf: string -> Option<string>, k: string)
    requires SortedStrings(names)
    ensures SortedStrings(PathsWithKey(folder, names, keyOf, k))
    decreases |names|
  {
    if names != [] {
      var init, last := names[..|names| - 1], names[|names| - 1];
      assert SortedStrings(init);
      PathsWithKeySorted(folder, init, keyOf, k);
      var before := PathsWithKey(folder, init, keyOf, k);
      forall j | 0 <= j < |before| ensures StrLe(before[j], Join(folder, last)) {
        InPathsWithKey(folder, init, keyOf, k, before[j]);
        var i :| 0 <= i < |init| && keyOf(init[i]) == Some(k) && before[j] == Join(folder, init[i]);
        assert StrLe(names[i], last);
        JoinKeepsOrder(folder, init[i], last);
      }
    }
  }

  /** Reordering the scanned names does not change which keys occur. */
  lemma HasKeyPermutation(names: seq<string>, others: seq<string>, keyOf: string -> Option<string>, k: string)
    requires multiset(names) == multiset(others)
    ensures HasKey(names, keyOf, k) <==> HasKey(others, keyOf, k)
  {
    if HasKey(names, keyOf, k) {
      var i :| 0 <= i < |names| && keyOf(names[i]) == Some(k);
      assert names[i] in multiset(others);
    }
    if HasKey(others, keyOf, k) {
      var i :| 0 <= i < |others| && keyOf(others[i]) == Some(k);
      assert others[i] in multiset(names);
    }
  }

  /**
   * The scan loop: for each name the key function recognises, append its
   * joined path to the list under its key, creating the list (and the key's
   * place in `order`) the first time the key is met.
   */
  method Collect(folder: string, names: seq<string>, keyOf: string -> Option<string>)
    returns (order: seq<string>, groups: map<string, seq<string>>)
    ensures order == KeysSeen(names, keyOf) && Distinct(order)
    ensures forall k :: k in groups <==> k in order
    ensures forall k :: k in groups <==> HasKey(names, keyOf, k)
    ensures forall k :: k in groups ==> groups[k] == PathsWithKey(folder, names, keyOf, k)
  {
    order, groups := [], map[];
    for i := 0 to |names|
      invariant order == KeysSeen(names[..i], keyOf)
      invariant forall k :: k in groups <==> k in order
      invariant forall k :: k in groups ==> groups[k] == PathsWithKey(folder, names[..i], keyOf, k)
    {
      assert names[..i + 1][..i] == names[..i];
      var f := names[i];
      match keyOf(f) {
        case None =>
        case Some(k) =>
          if k !in groups {
            KeysSeenMembership(names[..i], keyOf, k);
            InPathsWithKey(folder, names[..i], keyOf, k, Join(folder, f));
            EmptyWithoutKey(folder, names[..i], keyOf, k);
            order := order + [k];
            groups := groups[k := []];
          }
          groups := groups[k := groups[k] + [Join(folder, f)]];
      }
    }
    assert names[..|names|] == names;
    KeysSeenDistinct(names, keyOf);
    forall k ensures k in groups <==> HasKey(names, keyOf, k) {
      KeysSeenMembership(names, keyOf, k);
    }
  }

  lemma {:induction false} EmptyWithoutKey(folder: string, names: seq<string>, keyOf: string -> Option<string>, k: string)
    requires !HasKey(names, keyOf, k)
    ensures PathsWithKey(folder, names, keyOf, k) == []
    decreases |names|
  {
    if names != [] {
      HasKeyOfPrefix(names, keyOf, k);
      EmptyWithoutKey(folder, names[..|names| - 1], keyOf, k);
    }
  }
}
