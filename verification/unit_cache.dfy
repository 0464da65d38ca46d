/**
 One per-kind unit cache: metric name to Sentry unit, written by the
 `insert_unit!` macro and read once per registration. The read/write lock
 around it is abstracted away; every insert and lookup is atomic.
 */
module UnitCache {
  import opened Wrappers
  import opened Units

  type Cache = map<string, MetricUnit>

  /** The cached unit for `name`, if it was ever described. */
  function Get(c: Cache, name: string): (r: Option<MetricUnit>)
    ensures r.Some? <==> name in c
    ensures r.Some? ==> r.value == c[name]
  {
    if name in c then Some(c[name]) else None
  }

  /** `insert_unit!`: a present unit overwrites the entry for `name` with its
      translation; an absent unit writes nothing. No other name is touched. */
  function Insert(c: Cache, name: string, unit: Option<Unit>): (c': Cache)
    ensures unit.None? ==> c' == c
    ensures unit.Some? ==> Get(c', name) == Some(ConvertUnit(unit.value))
    ensures c'.Keys == if unit.Some? then c.Keys + {name} else c.Keys
    ensures forall n :: n != name ==> Get(c', n) == Get(c, n)
  {
    if unit.Some? then c[name := ConvertUnit(unit.value)] else c
  }
}
