/**
 * The dynamic binding context: a key-to-value store written when a test step
 * captures a value and read when a later step needs it again.
 */
module Binding {
  import opened Data
  import opened Wrappers

  /** The entries of a Kotlin map, in its iteration order. */
  type Entries = seq<(BindingKey, Value)>

  datatype BindingError =
    /** Lookup of an unbound key; carries the key and every binding held at that moment. */
    | BindingNotFound(key: BindingKey, available: map<BindingKey, Value>)
    /** A null value offered for `key`: the concurrent map refuses it and stores nothing. */
    | NullValueRejected(key: BindingKey)

  /** No key is bound to null, as the underlying concurrent map guarantees. */
  predicate NullFree(m: map<BindingKey, Value>) {
    forall k :: k in m ==> m[k] != Null
  }

  /** Length of the longest prefix of `entries` whose values are all non-null. */
  function NonNullPrefix(entries: Entries): (n: nat)
    ensures n <= |entries|
    ensures forall i :: 0 <= i < n ==> entries[i].1 != Null
    ensures n < |entries| ==> entries[n].1 == Null
  {
    if entries == [] || entries[0].1 == Null then 0
    else 1 + NonNullPrefix(entries[1..])
  }

  /** The first null among `entries` sits at `k` exactly when the non-null prefix has length `k`. */
  lemma NonNullPrefixIs(entries: Entries, k: nat)
    requires k <= |entries|
    requires forall i :: 0 <= i < k ==> entries[i].1 != Null
    requires k < |entries| ==> entries[k].1 == Null
    ensures NonNullPrefix(entries) == k
  {
  }

  /** The keys mentioned by `entries`. */
  function KeysOf(entries: Entries): set<BindingKey> {
    set i | 0 <= i < |entries| :: entries[i].0
  }

  /** The keys of `entries` are those of all but its last entry, plus the last entry's key. */
  lemma KeysOfSnoc(entries: Entries)
    requires entries != []
    ensures KeysOf(entries) == KeysOf(entries[..|entries| - 1]) + {entries[|entries| - 1].0}
  {
    var init := entries[..|entries| - 1];
    forall k | k in KeysOf(entries) ensures k in KeysOf(init) + {entries[|entries| - 1].0} {
      var i :| 0 <= i < |entries| && entries[i].0 == k;
      if i < |entries| - 1 { assert init[i] == entries[i]; }
    }
    forall k | k in KeysOf(init) ensures k in KeysOf(entries) {
      var i :| 0 <= i < |init| && init[i].0 == k;
      assert entries[i] == init[i];
    }
  }

  /**
   * `m` after storing every entry of `entries`, first to last: the old keys stay bound,
   * every entry's key becomes bound, and the last entry's value wins for its key
   * (`ApplyAllOverrides` states that no other key is bound).
   */
  function ApplyAll(m: map<BindingKey, Value>, entries: Entries): (r: map<BindingKey, Value>)
    ensures m.Keys <= r.Keys
    ensures forall i :: 0 <= i < |entries| ==> entries[i].0 in r
    ensures entries != [] ==> r[entries[|entries| - 1].0] == entries[|entries| - 1].1
  {
    if entries == [] then m
    else
      var last := entries[|entries| - 1];
      ApplyAll(m, entries[..|entries| - 1])[last.0 := last.1]
  }

  /** A Kotlin map never repeats a key. */
  predicate DistinctKeys(entries: Entries) {
    forall i, j :: 0 <= i < j < |entries| ==> entries[i].0 != entries[j].0
  }

  /** Storing a sequence of entries overrides `m` with what the entries alone would build. */
  lemma {:induction false} ApplyAllOverrides(m: map<BindingKey, Value>, entries: Entries)
    ensures ApplyAll(m, entries) == m + ApplyAll(map[], entries)
    ensures ApplyAll(map[], entries).Keys == KeysOf(entries)
  {
    if entries != [] {
      var init := entries[..|entries| - 1];
      ApplyAllOverrides(m, init);
      KeysOfSnoc(entries);
    }
  }

  /** After storing distinct-keyed entries, the key of entry `i` maps to that entry's value. */
  lemma {:induction false} ApplyAllValueAt(m: map<BindingKey, Value>, entries: Entries, i: nat)
    requires DistinctKeys(entries) && i < |entries|
    ensures ApplyAll(m, entries)[entries[i].0] == entries[i].1
  {
    if i < |entries| - 1 {
      var init := entries[..|entries| - 1];
      assert forall j :: 0 <= j < |init| ==> init[j] == entries[j];
      assert entries[i].0 != entries[|entries| - 1].0;
      ApplyAllValueAt(m, init, i);
    }
  }

  /**
   * After storing distinct-keyed entries, each key maps to its entry's value,
   * and every key the entries do not mention keeps its old binding (or stays unbound).
   */
  lemma ApplyAllStoresEach(m: map<BindingKey, Value>, entries: Entries)
    requires DistinctKeys(entries)
    ensures ApplyAll(m, entries).Keys == m.Keys + KeysOf(entries)
    ensures forall i :: 0 <= i < |entries| ==> ApplyAll(m, entries)[entries[i].0] == entries[i].1
    ensures forall k :: k in m && k !in KeysOf(entries) ==> ApplyAll(m, entries)[k] == m[k]
  {
    ApplyAllOverrides(m, entries);
    forall i | 0 <= i < |entries| ensures ApplyAll(m, entries)[entries[i].0] == entries[i].1 {
      ApplyAllValueAt(m, entries, i);
    }
  }

  /** Storing the same entries a second time changes nothing. */
  lemma ApplyAllIdempotent(m: map<BindingKey, Value>, entries: Entries)
    ensures ApplyAll(ApplyAll(m, entries), entries) == ApplyAll(m, entries)
  {
    var once := ApplyAll(m, entries);
    ApplyAllOverrides(m, entries);
    ApplyAllOverrides(once, entries);
    var l := ApplyAll(map[], entries);
    assert (m + l) + l == m + l;
  }

  /**
   * Storing `entries` one by one: every entry up to the first null value is stored,
   * and that null aborts the rest with an error naming its key.
   */
  function StoreAll(m: map<BindingKey, Value>, entries: Entries): (r: (map<BindingKey, Value>, Outcome<BindingError>))
    ensures r.1 == Pass <==> forall i :: 0 <= i < |entries| ==> entries[i].1 != Null
    ensures r.1 != Pass ==> r.1 == Fail(NullValueRejected(entries[NonNullPrefix(entries)].0))
    ensures r.0 == ApplyAll(m, entries[..NonNullPrefix(entries)])
  {
    var n := NonNullPrefix(entries);
    (ApplyAll(m, entries[..n]), if n == |entries| then Pass else Fail(NullValueRejected(entries[n].0)))
  }

  /** Entries with no null value are all stored, and storing succeeds. */
  lemma StoreAllOfNonNull(m: map<BindingKey, Value>, entries: Entries)
    requires forall i :: 0 <= i < |entries| ==> entries[i].1 != Null
    ensures StoreAll(m, entries) == (ApplyAll(m, entries), Pass)
  {
    NonNullPrefixIs(entries, |entries|);
    assert entries[..|entries|] == entries;
  }

  /** Storing non-null values into a null-free map keeps it null-free. */
  lemma {:induction false} ApplyAllKeepsNullFree(m: map<BindingKey, Value>, entries: Entries)
    requires NullFree(m)
    requires forall i :: 0 <= i < |entries| ==> entries[i].1 != Null
    ensures NullFree(ApplyAll(m, entries))
  {
    if entries != [] {
      var init := entries[..|entries| - 1];
      assert forall i :: 0 <= i < |init| ==> init[i] == entries[i];
      ApplyAllKeepsNullFree(m, init);
    }
  }

  /** Whatever the entries, storing them never binds a key to null. */
  lemma StoreAllKeepsNullFree(m: map<BindingKey, Value>, entries: Entries)
    requires NullFree(m)
    ensures NullFree(StoreAll(m, entries).0)
  {
    var n := NonNullPrefix(entries);
    assert forall i :: 0 <= i < n ==> entries[..n][i] == entries[i];
    ApplyAllKeepsNullFree(m, entries[..n]);
  }

  /** Repeating a bulk store changes nothing: the same prefix is stored again and the same error, if any, recurs. */
  lemma StoreAllIdempotent(m: map<BindingKey, Value>, entries: Entries)
    ensures StoreAll(StoreAll(m, entries).0, entries) == StoreAll(m, entries)
  {
    ApplyAllIdempotent(m, entries[..NonNullPrefix(entries)]);
  }

  /**
   * A bulk store, even one stopped by a null value, leaves every key the entries do not
   * mention as it was, and binds no key beyond the old ones and the entries' own.
   */
  lemma StoreAllFrame(m: map<BindingKey, Value>, entries: Entries)
    ensures forall k :: k in m && k !in KeysOf(entries) ==> StoreAll(m, entries).0[k] == m[k]
    ensures StoreAll(m, entries).0.Keys <= m.Keys + KeysOf(entries)
  {
    var prefix := entries[..NonNullPrefix(entries)];
    ApplyAllOverrides(m, prefix);
    assert KeysOf(prefix) <= KeysOf(entries) by {
      forall k | k in KeysOf(prefix) ensures k in KeysOf(entries) {
        var i :| 0 <= i < |prefix| && prefix[i].0 == k;
        assert entries[i] == prefix[i];
      }
    }
  }

  /** Storing `a + b` is storing `a`, then `b`. */
  lemma {:induction false} ApplyAllConcat(m: map<BindingKey, Value>, a: Entries, b: Entries)
    ensures ApplyAll(m, a + b) == ApplyAll(ApplyAll(m, a), b)
  {
    if b == [] {
      assert a + b == a;
    } else {
      assert (a + b)[..|a + b| - 1] == a + b[..|b| - 1];
      ApplyAllConcat(m, a, b[..|b| - 1]);
    }
  }

  class DynamicBindingContext {
    var bindings: map<BindingKey, Value>

    /** The class invariant: no key is ever bound to null. */
    ghost predicate Valid()
      reads this
    {
      NullFree(bindings)
    }

    constructor ()
      ensures Valid() && bindings == map[]
    {
      bindings := map[];
    }

    method HasBindingFor(key: BindingKey) returns (b: bool)
      ensures b <==> key in bindings
    {
      b := key in bindings;
    }

    /** Fail-fast lookup: an unbound key is an error naming the key and the current bindings. */
    method GetBinding(key: BindingKey) returns (r: Result<Value, BindingError>)
      ensures r.Success? <==> key in bindings
      ensures key in bindings ==> r.value == bindings[key]
      ensures key !in bindings ==> r.error == BindingNotFound(key, bindings)
      ensures Valid() && r.Success? ==> r.value != Null
    {
      var bound := HasBindingFor(key);
      if bound {
        r := Success(bindings[key]);
      } else {
        r := Failure(BindingNotFound(key, bindings));
      }
    }

    /**
     * Last write wins: `key` now maps to `value`, every other key is untouched.
     * A null value is refused with an error and changes nothing.
     */
    method StoreBinding(key: BindingKey, value: Value) returns (r: Outcome<BindingError>)
      requires Valid()
      modifies this
      ensures Valid()
      ensures value == Null ==> r == Fail(NullValueRejected(key)) && bindings == old(bindings)
      ensures value != Null ==> r == Pass && bindings == old(bindings)[key := value]
    {
      if value == Null {
        return Fail(NullValueRejected(key));
      }
      bindings := bindings[key := value];
      r := Pass;
    }

    /**
     * Stores each entry in iteration order, exactly as repeated `StoreBinding` calls
     * would; the first null value aborts the loop, keeping what was stored before it.
     */
    method StoreBindings(entries: Entries) returns (r: Outcome<BindingError>)
      requires Valid()
      modifies this
      ensures Valid()
      ensures bindings == StoreAll(old(bindings), entries).0
      ensures r == StoreAll(old(bindings), entries).1
    {
      for i := 0 to |entries|
        invariant Valid()
        invariant forall j :: 0 <= j < i ==> entries[j].1 != Null
        invariant bindings == ApplyAll(old(bindings), entries[..i])
      {
        assert entries[..i + 1][..i] == entries[..i];
        r := StoreBinding(entries[i].0, entries[i].1);
        if r.Fail? {
          NonNullPrefixIs(entries, i);
          return;
        }
      }
      NonNullPrefixIs(entries, |entries|);
      assert entries[..|entries|] == entries;
      r := Pass;
    }
  }

  /**
   * Looking a key up before anything was stored fails and reports an empty binding
   * set; offering a null value is refused and leaves the key unbound.
   */
  method UnboundLookupScenario() {
    var context := new DynamicBindingContext();
    var r := context.GetBinding(BindingKey("uuid"));
    assert r == Failure(BindingNotFound(BindingKey("uuid"), map[]));
    var stored := context.StoreBinding(BindingKey("uuid"), Null);
    assert stored == Fail(NullValueRejected(BindingKey("uuid")));
    var bound := context.HasBindingFor(BindingKey("uuid"));
    assert !bound;
    stored := context.StoreBinding(BindingKey("uuid"), Str("42"));
    r := context.GetBinding(BindingKey("uuid"));
    assert r == Success(Str("42"));
  }
}
