/**
 * Declarable type annotations (`internals::types::Types`).  `Struct` and
 * `Function` hold a Rust `HashMap` from names to types; it is modelled as a
 * Dafny `map`, which maps each name to at most one type and compares by contents.
 */
module InternalTypes {

  datatype Types =
    | Void
    | Int
    | Float
    | String
    | Bool
    | Char
    | Array(elements: seq<Types>)
    | Tuple(elements: seq<Types>)
    | Vector(elements: seq<Types>)
    | Struct(members: map<string, Types>)
    | Function(members: map<string, Types>)

  /** A name/type pair, in the order it was handed to `HashMap::insert`. */
  type Entry = (string, Types)

  /**
   * The map left after inserting `entries` one by one into an empty `HashMap`
   * (a later insert of the same name replaces the earlier type).
   */
  function FromEntries(entries: seq<Entry>): (m: map<string, Types>)
    ensures m.Keys == set e | e in entries :: e.0
  {
    if entries == [] then map[]
    else
      var init := FromEntries(entries[..|entries| - 1]);
      assert entries == entries[..|entries| - 1] + [entries[|entries| - 1]];
      init[entries[|entries| - 1].0 := entries[|entries| - 1].1]
  }

  /**
   * The last insert of a name wins: the map holds, for that name, the type of
   * the last entry carrying it, whatever earlier entries said.
   */
  lemma {:induction false} LastInsertWins(entries: seq<Entry>, i: nat)
    requires i < |entries|
    requires forall j :: i < j < |entries| ==> entries[j].0 != entries[i].0
    ensures entries[i].0 in FromEntries(entries)
    ensures FromEntries(entries)[entries[i].0] == entries[i].1
  {
    var n := |entries|;
    var init := entries[..n - 1];
    assert FromEntries(entries) == FromEntries(init)[entries[n - 1].0 := entries[n - 1].1];
    if i < n - 1 {
      forall j | i < j < |init| ensures init[j].0 != init[i].0 {
        assert init[j] == entries[j];
      }
      LastInsertWins(init, i);
      assert init[i] == entries[i];
    }
  }

  /** No name occurs in two entries. */
  predicate DistinctNames(entries: seq<Entry>)
  {
    forall i, j :: 0 <= i < j < |entries| ==> entries[i].0 != entries[j].0
  }

  /** With distinct names, each inserted entry is found in the map unchanged. */
  lemma {:induction false} FromEntriesLookup(entries: seq<Entry>, e: Entry)
    requires DistinctNames(entries)
    requires e in entries
    ensures e.0 in FromEntries(entries) && FromEntries(entries)[e.0] == e.1
  {
    var n := |entries|;
    var init := entries[..n - 1];
    var i :| 0 <= i < n && entries[i] == e;
    assert FromEntries(entries) == FromEntries(init)[entries[n - 1].0 := entries[n - 1].1];
    if i < n - 1 {
      assert init[i] == e;
      assert DistinctNames(init) by {
        forall a, b | 0 <= a < b < |init| ensures init[a].0 != init[b].0 {
          assert init[a] == entries[a] && init[b] == entries[b];
        }
      }
      assert e.0 != entries[n - 1].0;
      FromEntriesLookup(init, e);
    }
  }

  /**
   * `HashMap` equality ignores insertion order: two insertion sequences with
   * distinct names and the same entries give equal `Struct` (and `Function`)
   * types.
   */
  lemma StructIgnoresInsertionOrder(xs: seq<Entry>, ys: seq<Entry>)
    requires DistinctNames(xs) && DistinctNames(ys)
    requires multiset(xs) == multiset(ys)
    ensures Struct(FromEntries(xs)) == Struct(FromEntries(ys))
    ensures Function(FromEntries(xs)) == Function(FromEntries(ys))
  {
    var mx, my := FromEntries(xs), FromEntries(ys);
    assert mx.Keys == my.Keys by {
      forall e | e in xs ensures e in ys {
        assert e in multiset(xs);
      }
      forall e | e in ys ensures e in xs {
        assert e in multiset(ys);
      }
    }
    forall k | k in mx.Keys ensures mx[k] == my[k] {
      var e :| e in xs && e.0 == k;
      assert e in ys by { assert e in multiset(xs); }
      FromEntriesLookup(xs, e);
      FromEntriesLookup(ys, e);
    }
    assert mx == my;
  }
}
