/** `app_prueba.store.Store`: an in-memory map from string keys to string
    values. A Python dict remembers the order in which its keys were first
    inserted, and `keys()` lists them in that order, so the model keeps that
    order beside the map. */
module KeyValueStore {
  import opened Seqs
  import opened Text
  import Calc

  /** The contents of a store as a value: the map and its keys in first
      insertion order. */
  datatype Dict = Dict(data: map<string, string>, order: seq<string>)

  /** The order lists every key of the map once and nothing else. */
  ghost predicate Consistent(d: Dict)
  {
    (forall k :: k in d.data <==> k in d.order) &&
    (forall i, j :: 0 <= i < j < |d.order| ==> d.order[i] != d.order[j])
  }

  /** `self._data[key] = value`: a new key goes to the end of the order, an
      existing key keeps its place and gets the new value. */
  function Put(d: Dict, key: string, value: string): Dict
  {
    Dict(d.data[key := value], if key in d.data then d.order else d.order + [key])
  }

  /** `self._data.get(key)`. */
  function Find(d: Dict, key: string): Option<string>
  {
    if key in d.data then Some(d.data[key]) else None
  }

  const Empty: Dict := Dict(map[], [])

  /** Put keeps the order and the map in step. */
  lemma PutConsistent(d: Dict, key: string, value: string)
    requires Consistent(d)
    ensures Consistent(Put(d, key, value))
    ensures |Put(d, key, value).order| == |d.order| + (if key in d.data then 0 else 1)
  {
    var o := Put(d, key, value).order;
    if key !in d.data {
      forall i, j | 0 <= i < j < |o| ensures o[i] != o[j] {
        if j == |d.order| {
          assert o[i] == d.order[i] && d.order[i] in d.data;
        }
      }
    }
  }

  /** Reading a key right after writing it gives the value written, and every
      other key reads as before. */
  lemma FindAfterPut(d: Dict, key: string, value: string, other: string)
    ensures Find(Put(d, key, value), key) == Some(value)
    ensures other != key ==> Find(Put(d, key, value), other) == Find(d, other)
  {
  }

  /** Writing a key that is already there leaves the key order as it was;
      writing a new one appends it. */
  lemma PutOrder(d: Dict, key: string, value: string)
    ensures key in d.data ==> Put(d, key, value).order == d.order
    ensures key !in d.data ==> Put(d, key, value).order == d.order + [key]
  {
  }

  /** The store class. `Valid` is the dict's own invariant. */
  class Store {
    var data: map<string, string>
    var order: seq<string>

    function State(): Dict
      reads this
    {
      Dict(data, order)
    }

    ghost predicate Valid()
      reads this
    {
      Consistent(State())
    }

    /** `Store()`: empty. */
    constructor()
      ensures Valid() && State() == Empty
    {
      data := map[];
      order := [];
    }

    /** `set(key, value)`. */
    method Set(key: string, value: string)
      requires Valid()
      modifies this
      ensures Valid()
      ensures State() == Put(old(State()), key, value)
    {
      PutConsistent(State(), key, value);
      if key !in data {
        order := order + [key];
      }
      data := data[key := value];
    }

    /** `get(key)`: the stored value, or None for a key never set. */
    method Get(key: string) returns (r: Option<string>)
      requires Valid()
      ensures r.Some? <==> key in order
      ensures r.Some? ==> r.value == data[key]
    {
      if key in data {
        r := Some(data[key]);
      } else {
        r := None;
      }
    }

    /** `keys()`: every key once, in first insertion order. */
    method Keys() returns (ks: seq<string>)
      requires Valid()
      ensures forall k :: k in ks <==> k in data
      ensures forall i, j :: 0 <= i < j < |ks| ==> ks[i] != ks[j]
      ensures ks == order
    {
      ks := order;
    }
  }

  /** `test_keys_after_set` and `test_set_get`: two new keys are both listed;
      a written key reads back; a key never written reads as None. */
  lemma StoreUnitExamples()
    ensures Put(Put(Empty, "k1", "v1"), "k2", "v2").order == ["k1", "k2"]
    ensures Find(Put(Empty, "a", "1"), "a") == Some("1")
    ensures Find(Empty, "x") == None && Empty.order == []
  {
  }

  /** `test_store_multiple_keys_workflow`: three keys written in a loop are
      listed in the order written. */
  lemma MultipleKeysWorkflow()
    ensures var d := Put(Put(Put(Empty, "key_0", IntToString(Calc.Add(0, 1))), "key_1", IntToString(Calc.Add(1, 1))), "key_2", IntToString(Calc.Add(2, 1)));
      d.order == ["key_0", "key_1", "key_2"] && Find(d, "key_1") == Some("2")
  {
    assert IntToString(2) == "2";
  }

  /** `test_calc_and_store_together`: a sum and a greeting stored side by side
      read back as "30" and "Hello, CI!". */
  lemma CalcAndStoreTogether()
    ensures var d := Put(Put(Empty, "sum", IntToString(Calc.Add(10, 20))), "greeting", Calc.Greet("CI"));
      Find(d, "sum") == Some("30") && Find(d, "greeting") == Some("Hello, CI!")
  {
    assert Calc.Add(10, 20) == 30;
    assert IntToString(30) == NatToString(3) + [Digit(0)] == "30";
    assert Calc.Greet("CI") == "Hello, CI!";
  }
}
