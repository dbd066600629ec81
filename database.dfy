/**
 * The `Database` class: a string-to-int map updated in place, and the
 * rendering of a GET reply.
 */
module Redis {
  import opened JavaInt
  import opened Optional
  import opened Store

  const NIL: string := "<nil>"

  class Database {
    var hashTable: map<string, int32>

    constructor ()
      ensures hashTable == map[]
    {
      hashTable := map[];
    }

    method GetValueOfKey(key: string) returns (r: Option<int32>)
      ensures r.None? <==> key !in hashTable
      ensures r.Some? ==> r.value == hashTable[key]
      ensures r == Lookup(hashTable, key)
    {
      if key !in hashTable {
        r := None;
      } else {
        r := Some(hashTable[key]);
      }
    }

    method SetValueForKey(key: string, value: int32)
      modifies this
      ensures hashTable == old(hashTable)[key := value]
      ensures key in hashTable && hashTable[key] == value
      ensures forall k :: k != key ==> (k in hashTable <==> k in old(hashTable))
      ensures forall k :: k != key && k in hashTable ==> hashTable[k] == old(hashTable)[k]
      ensures |hashTable| == if key in old(hashTable) then |old(hashTable)| else |old(hashTable)| + 1
    {
      hashTable := hashTable[key := value];
    }

    method IncrementValueForKey(key: string)
      modifies this
      ensures hashTable == Increment(old(hashTable), key)
    {
      if key !in hashTable {
        SetValueForKey(key, 0);
      }
      var current := GetValueOfKey(key);
      SetValueForKey(key, Succ(current.value));
    }

    method DeleteKey(key: string)
      modifies this
      ensures hashTable == old(hashTable) - {key}
      ensures key !in hashTable
      ensures forall k :: k != key ==> (k in hashTable <==> k in old(hashTable))
      ensures forall k :: k in hashTable ==> hashTable[k] == old(hashTable)[k]
      ensures key !in old(hashTable) ==> hashTable == old(hashTable)
      ensures |hashTable| == if key in old(hashTable) then |old(hashTable)| - 1 else |old(hashTable)|
    {
      hashTable := hashTable - {key};
    }

    method DeleteValue(value: int32)
      modifies this
      ensures hashTable == RemoveValue(old(hashTable), value)
      ensures |hashTable| == |old(hashTable)| - |MatchingKeys(old(hashTable), value)|
    {
      hashTable := RemoveValue(hashTable, value);
    }

    method GetSize() returns (n: nat)
      ensures n == |hashTable.Keys|
    {
      n := |hashTable|;
    }
  }

  /**
   * `handleGetCommand`: the line printed for a looked-up value. A present value
   * is written in canonical decimal (see JavaInt.ToDecimalIsUnique) and reads back as itself.
   */
  function HandleGetCommand(value: Option<int32>): (s: string)
    ensures s == NIL <==> value.None?
    ensures value.Some? ==> ParseInt(s) == value && SignedCanonical(s)
    ensures value.Some? ==> s == ToDecimal(value.value)
  {
    match value
    case None => NIL
    case Some(v) => ToDecimal(v)
  }

  // The JUnit tests of the class, restated as clients of the contracts above;
  // `r1` and `r2` stand for the `Random.nextInt` draws.

  method TestGetNonExistentKey() {
    var db := new Database();
    var v := db.GetValueOfKey("key");
    assert v == None;
  }

  method TestGetExistingKey() {
    var db := new Database();
    db.SetValueForKey("key", 7);
    var v := db.GetValueOfKey("key");
    assert v == Some(7);
  }

  method TestIncrement() {
    var db := new Database();
    db.IncrementValueForKey("key");
    var v := db.GetValueOfKey("key");
    assert v == Some(1);
    db := new Database();
    db.SetValueForKey("key", 1);
    db.IncrementValueForKey("key");
    v := db.GetValueOfKey("key");
    assert v == Some(2);
  }

  method TestDeleteKey(r1: int32, r2: int32)
    requires 0 <= r1 < 5 && 0 <= r2 < 10
  {
    var db := new Database();
    db.SetValueForKey("key", r1);
    db.DeleteKey("key");
    var v := db.GetValueOfKey("key");
    assert v == None;
    db := new Database();
    db.SetValueForKey("key", r1);
    db.SetValueForKey("anotherKey", r2);
    db.DeleteKey("fakeKey");
    v := db.GetValueOfKey("key");
    assert v == Some(r1);
    v := db.GetValueOfKey("anotherKey");
    assert v == Some(r2);
  }

  method TestDeleteAbsentValue(r1: int32, r2: int32)
    requires 0 <= r1 < 5 && 0 <= r2 < 10
  {
    var db := new Database();
    db.SetValueForKey("key", r1);
    db.SetValueForKey("anotherKey", r2);
    assert MatchingKeys(db.hashTable, 1000) == {};
    db.DeleteValue(1000);
    var n := db.GetSize();
    assert n == 2;
    var v := db.GetValueOfKey("key");
    assert v == Some(r1);
    v := db.GetValueOfKey("anotherKey");
    assert v == Some(r2);
  }

  method TestDeletePresentValue() {
    var db := new Database();
    db.SetValueForKey("key", 1000);
    db.SetValueForKey("anotherKey", 1000);
    db.SetValueForKey("thirdKey", 1000);
    db.SetValueForKey("lebronJames", 10);
    assert MatchingKeys(db.hashTable, 1000) == {"key", "anotherKey", "thirdKey"};
    db.DeleteValue(1000);
    var n := db.GetSize();
    assert n == 1;
    var v := db.GetValueOfKey("lebronJames");
    assert v == Some(10);
  }
}
