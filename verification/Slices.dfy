/** ResourceSlices as the API server stores them. */
module Slices {
  import opened Wrappers

  datatype Attribute = TextValue(text: string) | IntValue(number: int) | BoolValue(flag: bool) | VersionValue(version: string)

  datatype Taint = Taint(key: string, effect: string, value: Option<string>, timeAdded: Option<int>)

  /** Counter and capacity amounts are kept as the text the server holds. */
  datatype Consumption = Consumption(counterSet: string, counters: map<string, string>)

  datatype Device = Device(
    name: string,
    attributes: Option<map<string, Attribute>>,
    capacity: Option<map<string, string>>,
    taints: Option<seq<Taint>>,
    consumes: Option<seq<Consumption>>,
    bindingConditions: Option<seq<string>>,
    bindingFailureConditions: Option<seq<string>>,
    bindsToNode: Option<bool>)

  datatype CounterSet = CounterSet(name: string, counters: map<string, string>)

  datatype Pool = Pool(name: string, generation: int, sliceCount: int)

  datatype Spec = Spec(
    driver: string,
    node: Option<string>,
    pool: Pool,
    devices: Option<seq<Device>>,
    counterSets: Option<seq<CounterSet>>)

  /** A stored object: identity, version and owner references beside the spec. */
  datatype Stored = Stored(uid: Option<nat>, version: Option<nat>, owners: seq<string>, spec: Spec)

  /**
   * The driver and node a publisher owns the slices of, how it names a pool's
   * slices by index, the canonical form it compares specs in, and which
   * stored specs count as faithful forms of a written one.
   */
  datatype Identity = Identity(
    driver: string,
    node: string,
    nameOf: (string, nat) -> string,
    canon: Spec -> Spec,
    keeps: (Spec, Spec) -> bool)

  predicate Owns(id: Identity, slice: Stored)
  {
    slice.spec.driver == id.driver && slice.spec.node == Some(id.node)
  }

  predicate InPool(id: Identity, pool: string, slice: Stored)
  {
    Owns(id, slice) && slice.spec.pool.name == pool
  }

  predicate InBatch(id: Identity, pool: string, generation: int, slice: Stored)
  {
    InPool(id, pool, slice) && slice.spec.pool.generation == generation
  }

  function AtGeneration(spec: Spec, generation: int): Spec
  {
    spec.(pool := spec.pool.(generation := generation))
  }

  /** The elements of an optional list, an absent one having none. */
  function Items<T>(list: Option<seq<T>>): seq<T>
  {
    match list
    case None => []
    case Some(xs) => xs
  }

  function NonEmpty<T>(xs: seq<T>): Option<seq<T>>
  {
    if xs == [] then None else Some(xs)
  }

  function NonEmptyMap<V>(m: Option<map<string, V>>): Option<map<string, V>>
  {
    if m == Some(map[]) then None else m
  }

  function NonFalse(flag: Option<bool>): Option<bool>
  {
    if flag == Some(false) then None else flag
  }
}
