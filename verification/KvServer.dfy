/** The versioned key/value server, and the model the test suite checks its histories against. */
module KvServer {

  datatype Err = OK | ErrNoKey | ErrVersion | ErrMaybe

  datatype Value = Value(value: string, version: nat)

  type Store = map<string, Value>

  datatype Op = Get(key: string) | Put(key: string, value: string, version: nat)

  datatype Result = Result(value: string, version: nat, err: Err)

  /** What the server does with one request. */
  function Serve(data: Store, op: Op): (Store, Result) {
    match op
    case Get(key) =>
      if key in data then (data, Result(data[key].value, data[key].version, OK)) else (data, Result("", 0, ErrNoKey))
    case Put(key, value, version) =>
      if key !in data then
        if version == 0 then (data[key := Value(value, 1)], Result("", 0, OK)) else (data, Result("", 0, ErrNoKey))
      else if data[key].version != version then (data, Result("", 0, ErrVersion))
      else (data[key := Value(value, version + 1)], Result("", 0, OK))
  }

  /** A Get of a stored key gives its value and version, and of any other key ErrNoKey; it changes nothing. */
  lemma GetAnswers(data: Store, key: string)
    ensures Serve(data, Get(key)).0 == data
    ensures key in data ==> Serve(data, Get(key)).1 == Result(data[key].value, data[key].version, OK)
    ensures key !in data ==> Serve(data, Get(key)).1.err == ErrNoKey
  {
  }

  /**
   A Put is done if and only if its version is the key's, counting an absent key as version 0; then the key has the
   value and the next version. Otherwise nothing changes, and the error says whether the key exists.
   */
  lemma PutAnswers(data: Store, key: string, value: string, version: nat)
    ensures var (data', r) := Serve(data, Put(key, value, version));
            var now := if key in data then data[key].version else 0;
            && (r.err == OK <==> version == now && (key in data || version == 0))
            && (r.err == OK ==> data' == data[key := Value(value, version + 1)])
            && (r.err != OK ==> data' == data && r.err == if key in data then ErrVersion else ErrNoKey)
  {
  }

  class KVServer {
    var data: Store

    constructor ()
      ensures data == map[]
    {
      data := map[];
    }

    method Get(key: string) returns (value: string, version: nat, err: Err)
      ensures Serve(data, Op.Get(key)) == (data, Result(value, version, err))
    {
      if key !in data {
        value, version, err := "", 0, ErrNoKey;
      } else {
        value, version, err := data[key].value, data[key].version, OK;
      }
    }

    method Put(key: string, value: string, version: nat) returns (err: Err)
      modifies this
      ensures Serve(old(data), Op.Put(key, value, version)) == (data, Result("", 0, err))
    {
      if key !in data {
        if version == 0 {
          data := data[key := Value(value, 1)];
          return OK;
        }
        return ErrNoKey;
      }
      if data[key].version != version {
        return ErrVersion;
      }
      data := data[key := Value(value, data[key].version + 1)];
      return OK;
    }
  }

  // ---------------------------------------------------------------- KvModel

  /** The state of one key. */
  datatype KvState = KvState(value: string, version: nat)

  const INIT := KvState("", 0)

  /** May this operation give this result in this state, and which state follows? */
  function Step(st: KvState, op: Op, out: Result): (bool, KvState) {
    match op
    case Get(_) => (out.value == st.value, st)
    case Put(_, value, version) =>
      if st.version == version then (out.err == OK || out.err == ErrMaybe, KvState(value, st.version + 1))
      else (out.err == ErrVersion || out.err == ErrMaybe, st)
  }
}
