# Sentry metrics recorder — a Dafny model

This project models the recorder adapter of `metrics-exporter-sentry`. The
adapter sits between the `metrics` crate's recorder interface and Sentry
metrics. It does four things:

- It translates `metrics::Unit` into Sentry's `MetricUnit`, with a custom-unit
  fallback (module `Units`).
- It keeps three per-kind unit caches: counters, gauges and histograms. The
  `describe_*` calls fill them, last write wins (modules `UnitCache` and
  `SentryRecorder`).
- It builds one handle per registration. The handle snapshots the cached unit
  once (`MetricHandle.NewHandle`, `SentryRecorder.Register`).
- On every emission it folds the key's labels into tags and picks the unit. A
  parsed `"unit"` label comes first, then the registration snapshot, then Sentry's
  `None` unit. It also drops the operations Sentry cannot represent (module
  `MetricHandle`).

Modelling choices:

- The `RwLock` caches are plain maps. Each describe and lookup is atomic.
- A handle is an immutable value, not an `Arc`.
- Sending a record (`.send()`) appends it to a sequence `sent` of records
  handed to Sentry.
- Two calls into code outside the model are function-valued fields of the
  `Foreign` parameter, and nothing is assumed about them:
  - `parse` stands for Sentry's unit parser, `str::parse::<MetricUnit>()` with `.ok()`.
  - `widen` stands for the `u64 as f64` cast.
- Metric values are `F64` bit patterns. The model does no arithmetic on them.
- Sentry's `MetricUnit::None` is called `NoUnit` here, so that it does not clash
  with `Option.None`.
- The `metrics::Unit` variants that `convert_unit` does not list are one
  constructor, `Other(name)`. Its `name` is what that variant's `as_str` returns.
- `describe_counter`, `describe_gauge` and `describe_histogram` are
  `SentryRecorder.Describe` at `CounterKind`, `GaugeKind` and `HistogramKind`.
- `register_counter`, `register_gauge` and `register_histogram` are
  `SentryRecorder.Register` at the same three kinds.

## Model

| member | source | states |
|---|---|---|
| Units.ConvertUnit | src/recorder.rs:110-126 | Total. The result is a custom unit exactly when the input is an unlisted unit, and then it carries that unit's string name. The result is never Sentry's `None` unit. |
| Units.ConvertUnitFollowsTable | src/recorder.rs:113-124 | Each of the ten listed units translates to the Fraction/Duration/Information variant the table pairs it with. Every unlisted unit is absent from the table and becomes `Custom(as_str)`. |
| Units.ConvertUnitRoundTrip | src/recorder.rs:110-126 | The translation is invertible on its image. `TranslatedFrom` recovers every unit from its translation, and it names exactly the unit that translates to a given Sentry unit. Hence distinct units never share a Sentry unit. |
| UnitCache.Get | src/recorder.rs:135-139 | A lookup finds a unit exactly when the name is cached, and that unit is the cached one. |
| UnitCache.Insert | src/recorder.rs:10-17 | With a unit present, the name's entry becomes that unit's translation and the name joins the keys. With no unit, the cache is unchanged. Other names keep their entries. |
| MetricHandle.NewHandle | src/recorder.rs:134-145 | The handle holds a copy of the key. Its unit is present exactly when the cache has the key's name, and then it equals the cached unit. |
| MetricHandle.ScanLabels | src/recorder.rs:151-159 | The left fold adds every non-`"unit"` label, in order, after the tags already present. Its override is the parse of the last `"unit"` label, or the incoming override when there is no `"unit"` label. |
| MetricHandle.LastUnitLabelAppend | src/recorder.rs:153-155 | The last `"unit"` label of a concatenation is in the second part when that part has one, otherwise in the first part. |
| MetricHandle.ApplyTagsAndUnit | src/recorder.rs:147-166 | Tags are exactly the non-unit labels. The unit is the parsed override if there is one, else the registration snapshot, else `NoUnit`. |
| MetricHandle.NonUnitLabelsMembers | src/recorder.rs:151-159 | A label becomes a tag iff it is one of the key's labels and its key is not `"unit"`. There are never more tags than labels. With no `"unit"` label, the tags are the labels unchanged. |
| MetricHandle.NonUnitLabelsAppend | src/recorder.rs:151-159 | Tag selection distributes over concatenation of label lists, so the labels' relative order is kept. |
| MetricHandle.LastUnitLabelIsLast | src/recorder.rs:153-155 | No override label is found iff no label has key `"unit"`. When one is found, it is the value of a `"unit"` label that no later `"unit"` label follows. |
| MetricHandle.LastUnitLabelDecides | src/recorder.rs:148-165 | A `"unit"` label followed by no other `"unit"` label decides the unit when it parses. When it does not parse, every earlier `"unit"` label is discarded as well, and the snapshot or `NoUnit` applies. Either way the `"unit"` label is not a tag. |
| MetricHandle.NoUnitLabelUsesSnapshot | src/recorder.rs:161-165 | With no `"unit"` label, the unit is the registration snapshot or `NoUnit`, and every label is a tag. |
| MetricHandle.ParsedUnitLabelExample | src/recorder.rs:151-165 | Take labels `unit=seconds, region=us` and a parser that reads seconds. The record is tagged only `region=us` and its unit is seconds. |
| MetricHandle.UnparsableUnitLabelExample | src/recorder.rs:151-165 | Take labels `unit=not-a-real-unit, region=us` and a parser that rejects the value. The record is tagged only `region=us` and its unit falls back to the snapshot or `NoUnit`. |
| MetricHandle.Emit | src/recorder.rs:170-199 | The common tail `apply_tags_and_unit(metric).send()` of the three supported emissions (lines 172, 191 and 198). Exactly one record is appended and earlier records are unchanged. The new record has the given kind, the key's name, the given value, the resolved tags and the unit chosen by precedence. |
| MetricHandle.CounterIncrement | src/recorder.rs:170-173 | Appends exactly one counter record. It carries the key's name, the widened delta, the resolved tags and the resolved unit. |
| MetricHandle.CounterAbsolute | src/recorder.rs:175-177 | Sends nothing. |
| MetricHandle.GaugeIncrement | src/recorder.rs:181-183 | Sends nothing. |
| MetricHandle.GaugeDecrement | src/recorder.rs:185-187 | Sends nothing. |
| MetricHandle.GaugeSet | src/recorder.rs:189-192 | Appends exactly one gauge record. It carries the key's name, the value as given, the resolved tags and the resolved unit. |
| MetricHandle.HistogramRecord | src/recorder.rs:196-199 | Appends exactly one distribution record. It carries the key's name, the value as given, the resolved tags and the resolved unit. |
| SentryRecorder.New | src/recorder.rs:42-48 | No name has a unit under any of the three kinds. |
| SentryRecorder.Describe | src/recorder.rs:58-83 | With a unit, the kind's entry for the name becomes the unit's translation. Without a unit, the recorder is unchanged. Other names and the other two caches are untouched. |
| SentryRecorder.Register | src/recorder.rs:85-107 | The handle holds the key and the unit that the kind's own cache held for the key's name at registration. |
| SentryRecorder.DescribeLastWriteWins | src/recorder.rs:10-17 | A second describe of the same kind and name gives the same recorder as the second describe alone. The entry is the second unit's translation. |
| SentryRecorder.KindsAreIsolated | src/recorder.rs:85-107 | Describing a name under one kind does not change a registration under another kind. |
| SentryRecorder.FreshHandleHasNoUnit | src/recorder.rs:42-48 | On a new recorder a handle snapshots no unit. Without a `"unit"` label its emissions carry `NoUnit` and every label as a tag. |
| SentryRecorder.HandleUnitIsSnapshot | src/recorder.rs:134-145 | A handle's unit is the cache entry at registration. A handle registered after a later describe sees the new unit. The two handles coincide iff the describe did not change the entry. |
| SentryRecorder.DescribeAllLastWriteWins | src/recorder.rs:58-83 | After any sequence of describe calls, each kind's entry for each name is the translation of the last unit given for that kind and name. A name never given a unit keeps its prior entry. |
| SentryRecorder.RegisterAfterDescribes | src/recorder.rs:85-107 | Start from a new recorder and run any sequence of describes. A registration then snapshots the last unit given for its kind and name, or nothing if none was given. |

## Left out

- The `RwLock` around each cache and its recovery from a poisoned lock (`PoisonError::into_inner`) are concurrency plumbing. Every cache operation is atomic and sequential here.
- `Arc` sharing and the `Counter/Gauge/Histogram::from_arc` wrappers are ownership mechanics. A handle is an immutable value.
- Sentry's unit parser is a foreign call whose grammar is not part of this model. It is the parameter `parse`, with no assumption about which strings it accepts. It may also yield Sentry's `None` unit, which then overrides the snapshot just like any other parsed unit.
- `metrics::Unit::as_str` is a foreign call. Each unlisted variant is identified by its `as_str` name, as `Other(name)`. So the model takes `as_str` to give distinct unlisted variants distinct names, and `Units.ConvertUnitRoundTrip` relies on that.
- `u64 as f64` is the parameter `widen`, and floating-point values are opaque bit patterns. No arithmetic is modelled.
- Sentry's `.send()` transport, hub and network delivery are I/O. A send appends to `sent`.
- Tag de-duplication in Sentry's metric builder is the backend's concern. Tags are the sequence of `with_tag` calls, duplicates included.
- The `_description` and `_metadata` arguments are ignored by the source and are not parameters here.
- src/lib.rs holds only documentation and a re-export. examples/simple.rs is process setup and I/O.
