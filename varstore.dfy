/**
 * The variable store of the machine (src/memoria.py): a dictionary from a
 * name to its value, updated in place.
 */
module VarStore {
  import opened Results

  /** The NameError raised when loading a name that has no binding. */
  datatype StoreError<K> = Undefined(name: K)

  class Memory<K(==,!new)> {
    var vars: map<K, int>

    constructor ()
      ensures vars == map[]
    {
      vars := map[];
    }

    /**
     * armazenar(nome, valor): binds name to value, replacing any earlier
     * binding; every other binding is kept.
     */
    method Store(name: K, value: int)
      modifies this
      ensures vars == old(vars)[name := value]
      ensures Load(name) == Ok(value)
      ensures forall n :: n != name ==> Load(n) == old(Load(n))
      ensures forall n :: Exists(n) <==> old(Exists(n)) || n == name
    {
      vars := vars[name := value];
    }

    /** carregar(nome): the value bound to name, or a failure naming it. */
    function Load(name: K): (r: Result<int, StoreError<K>>)
      reads this
      ensures r.Ok? <==> Exists(name)
      ensures r.Ok? ==> r.value == vars[name]
      ensures r.Err? ==> r.error == Undefined(name)
    {
      if Exists(name) then Ok(vars[name]) else Err(Undefined(name))
    }

    /** existe(nome): whether name has a binding; Store makes it hold, Clear makes it fail. */
    predicate Exists(name: K)
      reads this
    {
      name in vars
    }

    /** limpar(): removes every binding. */
    method Clear()
      modifies this
      ensures vars == map[]
      ensures forall n :: !Exists(n)
    {
      vars := map[];
    }
  }

  /** The last of two stores under the same name is the one a load sees. */
  method LastWriteWins<K(==,!new)>(name: K, first: int, second: int) returns (r: Result<int, StoreError<K>>)
    ensures r == Ok(second)
  {
    var m := new Memory<K>();
    m.Store(name, first);
    m.Store(name, second);
    r := m.Load(name);
  }

  /** A load of a name that was never stored fails. */
  method NeverStored<K(==,!new)>(name: K, other: K, v: int) returns (r: Result<int, StoreError<K>>)
    requires name != other
    ensures r == Err(Undefined(name))
  {
    var m := new Memory<K>();
    m.Store(other, v);
    r := m.Load(name);
  }
}
