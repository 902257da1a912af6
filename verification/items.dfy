/**
 * The decoded response envelope `{"data":{"item":[{"key":...,"value":...},...]}}`
 * and the fold that flattens its item list into a key-value map.
 */
module ItemFold {

  /** One `{"key": ..., "value": ...}` entry; a missing field decodes to "". */
  datatype Item = Item(key: string, value: string)

  /** The `data` object; a missing `item` array decodes to the empty list. */
  datatype Data = Data(items: seq<Item>)

  /** The whole envelope; a missing `data` object decodes to an empty `Data`. */
  datatype JsonData = JsonData(data: Data)

  /** Item `i` is the last one in `items` carrying its key. */
  predicate IsLastWith(items: seq<Item>, i: nat)
    requires i < |items|
  {
    forall j :: i < j < |items| ==> items[j].key != items[i].key
  }

  /** The keys the items carry. */
  ghost function KeysOf(items: seq<Item>): set<string> {
    set i | 0 <= i < |items| :: items[i].key
  }

  /**
   * `m` is what writing the items one after another into an empty map
   * leaves: its keys are exactly the item keys, and each key holds the
   * value of the last item with that key.
   */
  ghost predicate IsLastWriteMap(items: seq<Item>, m: map<string, string>) {
    && m.Keys == KeysOf(items)
    && (forall i :: 0 <= i < |items| && IsLastWith(items, i) ==>
          items[i].key in m && m[items[i].key] == items[i].value)
  }

  /** Left fold of `items` into a fresh map, later items overwriting earlier ones. */
  function Fold(items: seq<Item>): map<string, string>
    decreases |items|
  {
    if |items| == 0 then map[]
    else
      var last := items[|items| - 1];
      Fold(items[..|items| - 1])[last.key := last.value]
  }

  /** The fold's keys are exactly the keys the items carry. */
  lemma {:induction false} FoldKeys(items: seq<Item>)
    ensures Fold(items).Keys == KeysOf(items)
    decreases |items|
  {
    if |items| > 0 {
      var prefix := items[..|items| - 1];
      var last := items[|items| - 1];
      FoldKeys(prefix);
      assert KeysOf(items) == KeysOf(prefix) + {last.key} by {
        forall k | k in KeysOf(items)
          ensures k in KeysOf(prefix) + {last.key}
        {
          var i :| 0 <= i < |items| && items[i].key == k;
          if i < |prefix| {
            assert prefix[i].key == k;
          }
        }
        forall k | k in KeysOf(prefix)
          ensures k in KeysOf(items)
        {
          var i :| 0 <= i < |prefix| && prefix[i].key == k;
          assert items[i].key == k;
        }
      }
    }
  }

  /** Each key of the fold holds the value of the last item carrying it. */
  lemma {:induction false} FoldLastWins(items: seq<Item>, i: nat)
    requires i < |items| && IsLastWith(items, i)
    ensures items[i].key in Fold(items) && Fold(items)[items[i].key] == items[i].value
    decreases |items|
  {
    if i < |items| - 1 {
      var prefix := items[..|items| - 1];
      assert items[|items| - 1].key != items[i].key;
      assert prefix[i] == items[i];
      assert IsLastWith(prefix, i) by {
        forall j | i < j < |prefix|
          ensures prefix[j].key != prefix[i].key
        {
          assert prefix[j] == items[j];
        }
      }
      FoldLastWins(prefix, i);
    }
  }

  /** The fold builds exactly the last-write map of its items. */
  lemma FoldIsLastWriteMap(items: seq<Item>)
    ensures IsLastWriteMap(items, Fold(items))
  {
    FoldKeys(items);
    forall i | 0 <= i < |items| && IsLastWith(items, i)
      ensures items[i].key in Fold(items) && Fold(items)[items[i].key] == items[i].value
    {
      FoldLastWins(items, i);
    }
  }

  /**
   * Every key of a last-write map has a last item carrying it, so the
   * predicate pins the map down completely: two maps that satisfy it for
   * the same items are equal.
   */
  lemma {:induction false} LastWriteMapUnique(items: seq<Item>, m1: map<string, string>, m2: map<string, string>)
    requires IsLastWriteMap(items, m1)
    requires IsLastWriteMap(items, m2)
    ensures m1 == m2
  {
    forall k | k in m1
      ensures k in m2 && m1[k] == m2[k]
    {
      var i := LastIndexOf(items, k);
      assert items[i].key == k;
    }
  }

  /** The index of the last item carrying `k`, for a key some item carries. */
  function LastIndexOf(items: seq<Item>, k: string): (i: nat)
    requires exists i :: 0 <= i < |items| && items[i].key == k
    ensures i < |items| && items[i].key == k && IsLastWith(items, i)
    decreases |items|
  {
    if items[|items| - 1].key == k then |items| - 1
    else
      var prefix := items[..|items| - 1];
      assert exists i :: 0 <= i < |prefix| && prefix[i].key == k by {
        var i :| 0 <= i < |items| && items[i].key == k;
        assert i < |prefix| && prefix[i].key == k;
      }
      var i := LastIndexOf(prefix, k);
      assert items[i] == prefix[i];
      i
  }

  /**
   * The `range` loop of `parseJSON`: start from an empty map and assign each item's
   * value to its key in list order. It computes the fold.
   */
  method BuildConfig(items: seq<Item>) returns (m: map<string, string>)
    ensures m == Fold(items)
  {
    m := map[];
    var n := 0;
    while n < |items|
      invariant 0 <= n <= |items|
      invariant m == Fold(items[..n])
    {
      assert items[..n + 1][..n] == items[..n];
      m := m[items[n].key := items[n].value];
      n := n + 1;
    }
    assert items[..n] == items;
  }
}
