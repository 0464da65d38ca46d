/**
 The recorder (`SentryRecorder` in src/recorder.rs): three independent unit
 caches, one per metric kind, written by the describe operations and read
 once by each registration. `describe_counter`, `describe_gauge` and
 `describe_histogram` are `Describe` at kinds `CounterKind`, `GaugeKind` and
 `HistogramKind`; the three `register_*` operations are `Register` likewise.
 */
module SentryRecorder {
  import opened Wrappers
  import opened Units
  import opened Keys
  import UnitCache
  import opened MetricHandle

  /** Which of the three caches an operation uses. */
  datatype Kind = CounterKind | GaugeKind | HistogramKind

  datatype Recorder = Recorder(counters: UnitCache.Cache, gauges: UnitCache.Cache, histograms: UnitCache.Cache)
  {
    /** The cache belonging to `kind`. */
    function Units(kind: Kind): UnitCache.Cache
    {
      match kind
      case CounterKind => counters
      case GaugeKind => gauges
      case HistogramKind => histograms
    }

    /** The unit cached for `name` under `kind`, if it was ever described. */
    function Lookup(kind: Kind, name: string): Option<MetricUnit>
    {
      UnitCache.Get(Units(kind), name)
    }
  }

  /** `SentryRecorder::new`: all three caches start empty, so no name has a
      unit under any kind. */
  function New(): (r: Recorder)
    ensures forall k: Kind, n: string :: r.Lookup(k, n) == None
  {
    Recorder(map[], map[], map[])
  }

  /** `describe_*` through `insert_unit!`: with a unit, the entry for `name`
      in `kind`'s cache becomes that unit's translation, replacing any
      earlier one; without a unit nothing changes. Other names and the other
      two caches are never touched. */
  function Describe(r: Recorder, kind: Kind, name: string, unit: Option<Unit>): (r': Recorder)
    ensures unit.None? ==> r' == r
    ensures unit.Some? ==> r'.Lookup(kind, name) == Some(ConvertUnit(unit.value))
    ensures forall n :: n != name ==> r'.Lookup(kind, n) == r.Lookup(kind, n)
    ensures forall k :: k != kind ==> r'.Units(k) == r.Units(k)
  {
    match kind
    case CounterKind => r.(counters := UnitCache.Insert(r.counters, name, unit))
    case GaugeKind => r.(gauges := UnitCache.Insert(r.gauges, name, unit))
    case HistogramKind => r.(histograms := UnitCache.Insert(r.histograms, name, unit))
  }

  /** `register_*` through `Handle::new`: the handle holds a copy of the key
      and whatever `kind`'s cache held for the key's name at this moment;
      the other kinds' caches are not consulted. */
  function Register(r: Recorder, kind: Kind, key: Key): (h: Handle)
    ensures h.key == key
    ensures h.unit == r.Lookup(kind, key.name)
  {
    NewHandle(key, r.Units(kind))
  }

  // ---------------------------------------------------------------------
  // Properties of describe and register
  // ---------------------------------------------------------------------

  /** Last write wins: a second describe of the same name and kind leaves no
      trace of the first. */
  lemma DescribeLastWriteWins(r: Recorder, kind: Kind, name: string, a: Unit, b: Unit)
    ensures Describe(Describe(r, kind, name, Some(a)), kind, name, Some(b)) == Describe(r, kind, name, Some(b))
    ensures Describe(Describe(r, kind, name, Some(a)), kind, name, Some(b)).Lookup(kind, name) == Some(ConvertUnit(b))
  {
  }

  /** A name described under one kind is invisible when registering under
      another: the handle is the one the undescribed recorder would build. */
  lemma KindsAreIsolated(r: Recorder, described: Kind, registered: Kind, key: Key, unit: Option<Unit>)
    requires described != registered
    ensures Register(Describe(r, described, key.name, unit), registered, key) == Register(r, registered, key)
  {
  }

  /** On a fresh recorder every registration snapshots no unit, so with no
      unit label every emission carries `NoUnit`. */
  lemma FreshHandleHasNoUnit(kind: Kind, key: Key, foreign: Foreign)
    requires forall i :: 0 <= i < |key.labels| ==> key.labels[i].key != UnitLabel
    ensures Register(New(), kind, key).unit == None
    ensures ApplyTagsAndUnit(Register(New(), kind, key), foreign) == Resolved(key.labels, NoUnit)
  {
    NoUnitLabelUsesSnapshot(Register(New(), kind, key), foreign);
  }

  /** Snapshot, not live lookup: a describe after registration leaves the
      existing handle's unit as it was, while a handle registered afterwards
      sees the new unit. The two differ exactly when the describe changed the
      cached entry. */
  lemma HandleUnitIsSnapshot(r: Recorder, kind: Kind, key: Key, u: Unit)
    ensures Register(r, kind, key).unit == r.Lookup(kind, key.name)
    ensures Register(Describe(r, kind, key.name, Some(u)), kind, key).unit == Some(ConvertUnit(u))
    ensures Register(r, kind, key) == Register(Describe(r, kind, key.name, Some(u)), kind, key)
      <==> r.Lookup(kind, key.name) == Some(ConvertUnit(u))
  {
  }

  // ---------------------------------------------------------------------
  // A run of describe calls
  // ---------------------------------------------------------------------

  /** One describe call: kind, name and optional unit. */
  datatype Description = Description(kind: Kind, name: string, unit: Option<Unit>)

  /** The recorder after the describe calls `ds`, in order. */
  function DescribeAll(r: Recorder, ds: seq<Description>): Recorder
    decreases |ds|
  {
    if ds == [] then r
    else DescribeAll(Describe(r, ds[0].kind, ds[0].name, ds[0].unit), ds[1..])
  }

  /** The unit of the last call in `ds` that describes `name` under `kind`
      with a unit present, if any. */
  function LastDescribed(ds: seq<Description>, kind: Kind, name: string): Option<Unit>
    decreases |ds|
  {
    if ds == [] then None
    else
      var d := ds[|ds| - 1];
      if d.kind == kind && d.name == name && d.unit.Some? then d.unit
      else LastDescribed(ds[..|ds| - 1], kind, name)
  }

  /** The last described unit of `xs + ys` comes from `ys` if `ys` has one. */
  lemma {:induction false} LastDescribedAppend(xs: seq<Description>, ys: seq<Description>, kind: Kind, name: string)
    ensures LastDescribed(xs + ys, kind, name) ==
      LastDescribed(ys, kind, name).OrElse(LastDescribed(xs, kind, name))
    decreases |ys|
  {
    if ys == [] {
      assert xs + ys == xs;
    } else {
      var init := ys[..|ys| - 1];
      assert (xs + ys)[..|xs + ys| - 1] == xs + init;
      LastDescribedAppend(xs, init, kind, name);
    }
  }

  /** After any run of describe calls, each kind's entry for each name is
      the translation of the last unit given for that kind and name; a name
      never given a unit keeps the entry it had before the run. */
  lemma {:induction false} DescribeAllLastWriteWins(r: Recorder, ds: seq<Description>, kind: Kind, name: string)
    ensures DescribeAll(r, ds).Lookup(kind, name) ==
      match LastDescribed(ds, kind, name)
      case Some(u) => Some(ConvertUnit(u))
      case None => r.Lookup(kind, name)
    decreases |ds|
  {
    if ds != [] {
      var d := ds[0];
      var r1 := Describe(r, d.kind, d.name, d.unit);
      DescribeAllLastWriteWins(r1, ds[1..], kind, name);
      LastDescribedAppend([d], ds[1..], kind, name);
      assert [d] + ds[1..] == ds;
      assert LastDescribed([d], kind, name) ==
        if d.kind == kind && d.name == name && d.unit.Some? then d.unit else None;
    }
  }

  /** Starting from a fresh recorder, a registration after any run of
      describe calls snapshots the last unit given for its kind and name,
      and nothing when none was given. */
  lemma RegisterAfterDescribes(ds: seq<Description>, kind: Kind, key: Key)
    ensures Register(DescribeAll(New(), ds), kind, key).unit ==
      match LastDescribed(ds, kind, key.name)
      case Some(u) => Some(ConvertUnit(u))
      case None => None
  {
    DescribeAllLastWriteWins(New(), ds, kind, key.name);
  }
}
