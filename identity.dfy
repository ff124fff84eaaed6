/** Device identity (wrapper.py lines 34-35): the first truthy value among the
    configured key field and the `uuid`, `addr` and `peer` entries, with Python's
    `or` semantics. */
module Identity {
  import opened PyValues

  /** The record keys tried, in priority order. */
  function Candidates(keyField: string): seq<string> {
    [keyField, "uuid", "addr", "peer"]
  }

  /** Python's `v0 or v1 or ... or vn`: the first truthy operand; when none is
      truthy, the last operand. */
  function OrChain(vs: seq<Value>): (r: Value)
    requires |vs| > 0
    ensures r in vs
    ensures Truthy(r) <==> exists i :: 0 <= i < |vs| && Truthy(vs[i])
    ensures forall i :: 0 <= i < |vs| && Truthy(vs[i]) && (forall j :: 0 <= j < i ==> !Truthy(vs[j])) ==> r == vs[i]
    ensures !Truthy(r) ==> r == vs[|vs| - 1]
  {
    if |vs| == 1 || Truthy(vs[0]) then vs[0] else OrChain(vs[1..])
  }

  /** `device_key(d)`. */
  function DeviceKey(d: Record, keyField: string): Value {
    OrChain(seq(4, i requires 0 <= i < 4 => Get(d, Candidates(keyField)[i])))
  }

  /** The priority order, case by case: the key field wins when truthy, then
      `uuid`, then `addr`, then `peer`; when none is truthy the result is falsy. */
  lemma DeviceKeyPriority(d: Record, keyField: string)
    ensures var k := DeviceKey(d, keyField);
      && (Truthy(Get(d, keyField)) ==> k == Get(d, keyField))
      && (!Truthy(Get(d, keyField)) && Truthy(Get(d, "uuid")) ==> k == Get(d, "uuid"))
      && (!Truthy(Get(d, keyField)) && !Truthy(Get(d, "uuid")) && Truthy(Get(d, "addr")) ==> k == Get(d, "addr"))
      && (!Truthy(Get(d, keyField)) && !Truthy(Get(d, "uuid")) && !Truthy(Get(d, "addr")) ==> k == Get(d, "peer"))
      && (Truthy(k) <==> Truthy(Get(d, keyField)) || Truthy(Get(d, "uuid")) || Truthy(Get(d, "addr")) || Truthy(Get(d, "peer")))
  {
    var vs := seq(4, i requires 0 <= i < 4 => Get(d, Candidates(keyField)[i]));
    assert vs[0] == Get(d, keyField) && vs[1] == Get(d, "uuid");
    assert vs[2] == Get(d, "addr") && vs[3] == Get(d, "peer");
  }

  /** An identity is always one of the record's own candidate values: a record
      holding none of the four keys has the falsy identity `None`. */
  lemma DeviceKeyFromCandidates(d: Record, keyField: string)
    ensures Truthy(DeviceKey(d, keyField)) ==> exists c :: c in Candidates(keyField) && c in d && d[c] == DeviceKey(d, keyField)
    ensures (forall c :: c in Candidates(keyField) ==> c !in d) ==> DeviceKey(d, keyField) == Null
  {
    DeviceKeyPriority(d, keyField);
    var k := DeviceKey(d, keyField);
    if Truthy(k) {
      if Truthy(Get(d, keyField)) {
        assert Candidates(keyField)[0] == keyField;
      } else if Truthy(Get(d, "uuid")) {
        assert Candidates(keyField)[1] == "uuid";
      } else if Truthy(Get(d, "addr")) {
        assert Candidates(keyField)[2] == "addr";
      } else {
        assert Candidates(keyField)[3] == "peer";
      }
    }
    if forall c :: c in Candidates(keyField) ==> c !in d {
      assert "peer" in Candidates(keyField);
    }
  }
}
