/** The in-memory store: a map behind a lock. */
module Storage {
  import opened Text
  import opened Common

  function Lookup(data: map<Bytes, Bytes>, key: Bytes): Option<Bytes> {
    if key in data then Some(data[key]) else None
  }

  class Store {
    var data: map<Bytes, Bytes>

    constructor ()
      ensures data == map[]
    {
      data := map[];
    }

    // nil when the key is missing
    method Get(key: Bytes) returns (val: Option<Bytes>)
      ensures val == Lookup(data, key)
    {
      val := if key in data then Some(data[key]) else None;
    }

    method Set(key: Bytes, val: Bytes)
      modifies this
      ensures data == old(data)[key := val]
    {
      data := data[key := val];
    }
  }
}
