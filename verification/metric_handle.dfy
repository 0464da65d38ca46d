/**
 The per-registration handle (`Handle` in src/recorder.rs): a snapshot of a
 metric's key and cached unit, and the emission operations the
 instrumentation layer calls on it. Sending a record to Sentry is modelled as
 appending it to the sequence `sent` of records handed to the backend.
 */
module MetricHandle {
  import opened Wrappers
  import opened Units
  import opened Keys
  import UnitCache

  /** A 64-bit unsigned counter delta (`u64`). */
  newtype U64 = x: int | 0 <= x < 0x1_0000_0000_0000_0000

  /** A 64-bit float (`f64`), kept as its bit pattern: the recorder never
      does arithmetic on metric values, it only passes them on. */
  datatype F64 = F64(bits: bv64)

  /** The calls into code outside this model, left uninterpreted: Sentry's
      unit parser (`str::parse::<MetricUnit>` followed by `.ok()`, `None` when
      the text is rejected) and Rust's `u64 as f64` cast. */
  datatype Foreign = Foreign(parse: string -> Option<MetricUnit>, widen: U64 -> F64)

  /** The kind of record handed to Sentry. */
  datatype MetricType = Counter | Gauge | Distribution

  /** One record handed to Sentry: name, kind, value, tags and unit. */
  datatype Record = Record(kind: MetricType, name: string, value: F64, tags: seq<Label>, unit: MetricUnit)

  /** A registered metric: its key and the unit cached for its name at
      registration time, if any. Never changes after construction. */
  datatype Handle = Handle(key: Key, unit: Option<MetricUnit>)

  /** `Handle::new`: copies the key and snapshots the cache entry for the
      key's name exactly once. */
  function NewHandle(key: Key, units: UnitCache.Cache): (h: Handle)
    ensures h.key == key
    ensures h.unit.Some? <==> key.name in units
    ensures h.unit.Some? ==> h.unit.value == units[key.name]
  {
    Handle(key, UnitCache.Get(units, key.name))
  }

  // ---------------------------------------------------------------------
  // Reference definitions of the resolved tags and unit
  // ---------------------------------------------------------------------

  /** The labels that are not unit overrides, in their original order. */
  function NonUnitLabels(ls: seq<Label>): seq<Label>
  {
    if ls == [] then []
    else (if ls[0].key == UnitLabel then [] else [ls[0]]) + NonUnitLabels(ls[1..])
  }

  /** The value of the last `"unit"` label, if there is one. */
  function LastUnitLabel(ls: seq<Label>): Option<string>
  {
    if ls == [] then None
    else if ls[|ls| - 1].key == UnitLabel then Some(ls[|ls| - 1].value)
    else LastUnitLabel(ls[..|ls| - 1])
  }

  /** The per-call unit override: the parse of the last `"unit"` label.
      An unparsable last label yields no override, whatever came before. */
  function Override(foreign: Foreign, ls: seq<Label>): Option<MetricUnit>
  {
    match LastUnitLabel(ls)
    case Some(v) => foreign.parse(v)
    case None => None
  }

  // ---------------------------------------------------------------------
  // apply_tags_and_unit
  // ---------------------------------------------------------------------

  /** The state the fold in `apply_tags_and_unit` threads through the
      labels: the tags added to the builder so far, and the `unit` variable. */
  datatype Scan = Scan(tags: seq<Label>, unit: Option<MetricUnit>)

  /** One step of the fold: a `"unit"` label replaces the override with its
      parse (possibly with nothing); any other label is added as a tag. */
  function ScanLabel(foreign: Foreign, s: Scan, l: Label): Scan
  {
    if l.key == UnitLabel then Scan(s.tags, foreign.parse(l.value))
    else Scan(s.tags + [l], s.unit)
  }

  /** The left fold over the labels. After it, the builder carries every
      non-unit label in order, and the override is the last unit label's
      parse, or the incoming one when there is no unit label. */
  function ScanLabels(foreign: Foreign, s: Scan, ls: seq<Label>): (r: Scan)
    ensures r.tags == s.tags + NonUnitLabels(ls)
    ensures r.unit == if LastUnitLabel(ls).Some? then Override(foreign, ls) else s.unit
    decreases |ls|
  {
    if ls == [] then s
    else
      var r := ScanLabels(foreign, ScanLabel(foreign, s, ls[0]), ls[1..]);
      LastUnitLabelAppend([ls[0]], ls[1..]);
      assert [ls[0]] + ls[1..] == ls;
      r
  }

  /** The last unit label of a concatenation lies in the second part if it
      has one, otherwise in the first. */
  lemma {:induction false} LastUnitLabelAppend(xs: seq<Label>, ys: seq<Label>)
    ensures LastUnitLabel(xs + ys) ==
      if LastUnitLabel(ys).Some? then LastUnitLabel(ys) else LastUnitLabel(xs)
    decreases |ys|
  {
    if ys == [] {
      assert xs + ys == xs;
    } else {
      var init := ys[..|ys| - 1];
      assert (xs + ys)[..|xs + ys| - 1] == xs + init;
      if ys[|ys| - 1].key != UnitLabel {
        LastUnitLabelAppend(xs, init);
      }
    }
  }

  /** The tags and unit an emission attaches to its record. */
  datatype Resolved = Resolved(tags: seq<Label>, unit: MetricUnit)

  /** `apply_tags_and_unit`: every non-unit label becomes a tag, in order and
      verbatim; the unit is chosen by precedence: a parsed per-call override,
      else the registration snapshot, else `NoUnit`. */
  function ApplyTagsAndUnit(h: Handle, foreign: Foreign): (r: Resolved)
    ensures r.tags == NonUnitLabels(h.key.labels)
    ensures Override(foreign, h.key.labels).Some? ==> r.unit == Override(foreign, h.key.labels).value
    ensures Override(foreign, h.key.labels).None? && h.unit.Some? ==> r.unit == h.unit.value
    ensures Override(foreign, h.key.labels).None? && h.unit.None? ==> r.unit == NoUnit
  {
    var s := ScanLabels(foreign, Scan([], None), h.key.labels);
    Resolved(s.tags, s.unit.OrElse(h.unit).GetOr(NoUnit))
  }

  /** The tags are exactly the non-unit labels: a label is a tag iff it is
      one of the key's labels and its key is not `"unit"`, and filtering
      never reorders or invents labels. */
  lemma {:induction false} NonUnitLabelsMembers(ls: seq<Label>, l: Label)
    ensures l in NonUnitLabels(ls) <==> l in ls && l.key != UnitLabel
    ensures |NonUnitLabels(ls)| <= |ls|
    ensures (forall i :: 0 <= i < |ls| ==> ls[i].key != UnitLabel) ==> NonUnitLabels(ls) == ls
  {
    if ls != [] {
      NonUnitLabelsMembers(ls[1..], l);
      assert ls == [ls[0]] + ls[1..];
    }
  }

  /** Filtering distributes over concatenation, so tags keep the labels'
      relative order. */
  lemma {:induction false} NonUnitLabelsAppend(xs: seq<Label>, ys: seq<Label>)
    ensures NonUnitLabels(xs + ys) == NonUnitLabels(xs) + NonUnitLabels(ys)
    decreases |xs|
  {
    if xs == [] {
      assert xs + ys == ys;
    } else {
      assert (xs + ys)[1..] == xs[1..] + ys;
      NonUnitLabelsAppend(xs[1..], ys);
    }
  }

  /** `LastUnitLabel` finds nothing exactly when no label has key `"unit"`,
      and otherwise the value of a unit label after which no unit label follows. */
  lemma {:induction false} LastUnitLabelIsLast(ls: seq<Label>)
    ensures LastUnitLabel(ls).None? <==> forall i :: 0 <= i < |ls| ==> ls[i].key != UnitLabel
    ensures LastUnitLabel(ls).Some? ==>
      exists i :: 0 <= i < |ls| && ls[i] == Label(UnitLabel, LastUnitLabel(ls).value)
        && forall j :: i < j < |ls| ==> ls[j].key != UnitLabel
    decreases |ls|
  {
    if ls != [] {
      var last := |ls| - 1;
      if ls[last].key == UnitLabel {
        assert ls[last] == Label(UnitLabel, LastUnitLabel(ls).value);
      } else {
        var init := ls[..last];
        LastUnitLabelIsLast(init);
        assert forall i :: 0 <= i < last ==> ls[i] == init[i];
        if LastUnitLabel(ls).Some? {
          var i :| 0 <= i < |init| && init[i] == Label(UnitLabel, LastUnitLabel(init).value)
            && forall j :: i < j < |init| ==> init[j].key != UnitLabel;
          assert ls[i] == init[i];
        }
      }
    }
  }

  /** A lone unit label is its own last unit label and contributes no tag. */
  lemma SingleUnitLabel(v: string)
    ensures LastUnitLabel([Label(UnitLabel, v)]) == Some(v)
    ensures NonUnitLabels([Label(UnitLabel, v)]) == []
  {
  }

  /** The last unit label of `before + [unit=v] + after`, when `after` has no
      unit label, is `v`; the non-unit labels are those of `before` and `after`. */
  lemma {:induction false} SplitAtLastUnitLabel(before: seq<Label>, v: string, after: seq<Label>)
    requires forall j :: 0 <= j < |after| ==> after[j].key != UnitLabel
    ensures LastUnitLabel(before + [Label(UnitLabel, v)] + after) == Some(v)
    ensures NonUnitLabels(before + [Label(UnitLabel, v)] + after) == NonUnitLabels(before) + NonUnitLabels(after)
  {
    var u := [Label(UnitLabel, v)];
    SingleUnitLabel(v);
    LastUnitLabelIsLast(after);
    LastUnitLabelAppend(before, u);
    LastUnitLabelAppend(before + u, after);
    NonUnitLabelsAppend(before, u);
    NonUnitLabelsAppend(before + u, after);
    assert NonUnitLabels(before + u) == NonUnitLabels(before);
  }

  /** A unit label that is followed by no other unit label decides the unit:
      its parse when that succeeds; when it fails, every earlier unit label
      is discarded too and the registration snapshot (or `NoUnit`) applies. */
  lemma LastUnitLabelDecides(h: Handle, foreign: Foreign, before: seq<Label>, v: string, after: seq<Label>)
    requires h.key.labels == before + [Label(UnitLabel, v)] + after
    requires forall j :: 0 <= j < |after| ==> after[j].key != UnitLabel
    ensures foreign.parse(v).Some? ==> ApplyTagsAndUnit(h, foreign).unit == foreign.parse(v).value
    ensures foreign.parse(v).None? ==> ApplyTagsAndUnit(h, foreign).unit == h.unit.GetOr(NoUnit)
    ensures ApplyTagsAndUnit(h, foreign).tags == NonUnitLabels(before) + NonUnitLabels(after)
  {
    SplitAtLastUnitLabel(before, v, after);
  }

  /** Without any unit label, the unit is the registration snapshot, or
      `NoUnit` when the name was never described. */
  lemma NoUnitLabelUsesSnapshot(h: Handle, foreign: Foreign)
    requires forall i :: 0 <= i < |h.key.labels| ==> h.key.labels[i].key != UnitLabel
    ensures ApplyTagsAndUnit(h, foreign).unit == h.unit.GetOr(NoUnit)
    ensures ApplyTagsAndUnit(h, foreign).tags == h.key.labels
  {
    LastUnitLabelIsLast(h.key.labels);
    NonUnitLabelsMembers(h.key.labels, Label(UnitLabel, ""));
  }

  /** Labels `unit=seconds, region=us` with a parser that reads `"seconds"`
      as seconds: the only tag is `region=us` and the unit is seconds. */
  lemma ParsedUnitLabelExample(h: Handle, foreign: Foreign)
    requires h.key.labels == [Label("unit", "seconds"), Label("region", "us")]
    requires foreign.parse("seconds") == Some(Duration(Second))
    ensures ApplyTagsAndUnit(h, foreign) == Resolved([Label("region", "us")], Duration(Second))
  {
  }

  /** Labels `unit=not-a-real-unit, region=us` with a parser that rejects
      the value: the unit label is still not a tag, and the unit falls back
      to the registration snapshot or `NoUnit`. */
  lemma UnparsableUnitLabelExample(h: Handle, foreign: Foreign)
    requires h.key.labels == [Label("unit", "not-a-real-unit"), Label("region", "us")]
    requires foreign.parse("not-a-real-unit") == None
    ensures ApplyTagsAndUnit(h, foreign) == Resolved([Label("region", "us")], h.unit.GetOr(NoUnit))
  {
  }

  // ---------------------------------------------------------------------
  // Emission
  // ---------------------------------------------------------------------

  /** `sent'` is `sent` with exactly one record appended: a `kind` record
      for `h`'s name carrying `value`, the key's non-unit labels as tags, and
      the unit chosen by precedence (parsed override, else the registration
      snapshot, else `NoUnit`). Nothing already sent changes. */
  predicate SendsOne(h: Handle, foreign: Foreign, kind: MetricType, value: F64, sent: seq<Record>, sent': seq<Record>)
  {
    && |sent'| == |sent| + 1
    && sent'[..|sent|] == sent
    && sent'[|sent|].kind == kind
    && sent'[|sent|].name == h.key.name
    && sent'[|sent|].value == value
    && sent'[|sent|].tags == NonUnitLabels(h.key.labels)
    && sent'[|sent|].unit == Override(foreign, h.key.labels).OrElse(h.unit).GetOr(NoUnit)
  }

  /** The common tail of the three supported emissions,
      `apply_tags_and_unit(metric).send()`: resolves the tags and unit of the
      record for `value` and sends it. */
  function Emit(h: Handle, foreign: Foreign, kind: MetricType, value: F64, sent: seq<Record>): (sent': seq<Record>)
    ensures SendsOne(h, foreign, kind, value, sent, sent')
  {
    var r := ApplyTagsAndUnit(h, foreign);
    sent + [Record(kind, h.key.name, value, r.tags, r.unit)]
  }

  /** `CounterFn::increment`: sends one counter record whose value is the
      delta widened to a float. */
  function CounterIncrement(h: Handle, foreign: Foreign, value: U64, sent: seq<Record>): (sent': seq<Record>)
    ensures SendsOne(h, foreign, Counter, foreign.widen(value), sent, sent')
  {
    Emit(h, foreign, Counter, foreign.widen(value), sent)
  }

  /** `CounterFn::absolute`: not supported by Sentry, so nothing is sent. */
  function CounterAbsolute(h: Handle, foreign: Foreign, value: U64, sent: seq<Record>): (sent': seq<Record>)
    ensures sent' == sent
  {
    sent
  }

  /** `GaugeFn::increment`: not supported by Sentry, so nothing is sent. */
  function GaugeIncrement(h: Handle, foreign: Foreign, value: F64, sent: seq<Record>): (sent': seq<Record>)
    ensures sent' == sent
  {
    sent
  }

  /** `GaugeFn::decrement`: not supported by Sentry, so nothing is sent. */
  function GaugeDecrement(h: Handle, foreign: Foreign, value: F64, sent: seq<Record>): (sent': seq<Record>)
    ensures sent' == sent
  {
    sent
  }

  /** `GaugeFn::set`: sends one gauge record carrying the value as given. */
  function GaugeSet(h: Handle, foreign: Foreign, value: F64, sent: seq<Record>): (sent': seq<Record>)
    ensures SendsOne(h, foreign, Gauge, value, sent, sent')
  {
    Emit(h, foreign, Gauge, value, sent)
  }

  /** `HistogramFn::record`: sends one distribution record carrying the
      value as given. */
  function HistogramRecord(h: Handle, foreign: Foreign, value: F64, sent: seq<Record>): (sent': seq<Record>)
    ensures SendsOne(h, foreign, Distribution, value, sent, sent')
  {
    Emit(h, foreign, Distribution, value, sent)
  }
}
