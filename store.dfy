/**
 * The contents of a `Database` as a value: the `Map<String, Integer>` behind
 * `hashTable`, with the updates its methods make stated as functions on maps.
 * The class in module Redis is proved against these.
 */
module Store {
  import opened JavaInt
  import opened Optional

  type Table = map<string, int32>

  /**
   * `getValueOfKey` as a function of the map: empty when the key is absent,
   * otherwise its value. `Redis.Database.GetValueOfKey` is its method form.
   */
  function Lookup(t: Table, key: string): Option<int32> {
    if key in t then Some(t[key]) else None
  }

  /**
   * `incrementValueForKey`: an absent key is first set to 0, then the key is
   * set to its value plus one with 32-bit wrap-around.
   */
  function Increment(t: Table, key: string): (r: Table)
    ensures r.Keys == t.Keys + {key}
    ensures key !in t ==> r[key] == 1
    ensures key in t && t[key] as int < MAX_VALUE ==> r[key] as int == t[key] as int + 1
    ensures key in t && t[key] as int == MAX_VALUE ==> r[key] as int == MIN_VALUE
    ensures forall k :: k in t && k != key ==> r[k] == t[k]
  {
    var start := if key in t then t[key] else 0;
    t[key := Succ(start)]
  }

  /** The keys currently holding `v`. */
  function MatchingKeys(t: Table, v: int32): set<string> {
    set k | k in t && t[k] == v
  }

  /** `deleteValue`: `values().removeAll(singleton(v))` drops every entry whose value is `v`. */
  function RemoveValue(t: Table, v: int32): (r: Table)
    ensures r.Keys == t.Keys - MatchingKeys(t, v)
    ensures forall k :: k in r ==> r[k] == t[k] && r[k] != v
    ensures MatchingKeys(t, v) == {} ==> r == t
    ensures |r| == |t| - |MatchingKeys(t, v)|
  {
    map k | k in t && t[k] != v :: t[k]
  }

  /** `incrementValueForKey` applied `n` times. */
  function IncrementTimes(t: Table, key: string, n: nat): Table {
    if n == 0 then t else Increment(IncrementTimes(t, key, n - 1), key)
  }

  /** From an absent key, `n` increments (without overflow) leave exactly `n` there. */
  lemma {:induction false} IncrementFromAbsent(t: Table, key: string, n: nat)
    requires key !in t
    requires 1 <= n <= MAX_VALUE
    ensures IncrementTimes(t, key, n) == t[key := n as int32]
  {
    if n > 1 {
      IncrementFromAbsent(t, key, n - 1);
    }
  }
}
