/**
 The two unit vocabularies the recorder bridges and the translation between
 them (`convert_unit` in src/recorder.rs).
 */
module Units {
  import opened Wrappers

  /** The instrumentation-side unit (`metrics::Unit`). The ten variants the
      recorder translates are listed by name; `Other(name)` stands for every
      remaining variant, and `name` is what that variant's `as_str` returns.
      Each unlisted variant is thus identified by its `as_str` name: the model
      takes `as_str` to give distinct unlisted variants distinct names, and
      `ConvertUnitRoundTrip` relies on that. */
  datatype Unit =
    | Percent | Seconds | Milliseconds | Microseconds | Nanoseconds
    | Tebibytes | Gigibytes | Mebibytes | Kibibytes | Bytes
    | Other(name: string)

  /** Sentry's time units. */
  datatype DurationUnit =
    NanoSecond | MicroSecond | MilliSecond | Second | Minute | Hour | Day | Week

  /** Sentry's size units. */
  datatype InformationUnit =
    | Bit | Byte
    | KiloByte | KibiByte | MegaByte | MebiByte | GigaByte | GibiByte
    | TeraByte | TebiByte | PetaByte | PebiByte | ExaByte | ExbiByte

  /** Sentry's fraction units. */
  datatype FractionUnit = Ratio | Percent

  /** Sentry's unit (`MetricUnit`); `NoUnit` is the variant Sentry calls `None`. */
  datatype MetricUnit =
    | NoUnit
    | Duration(duration: DurationUnit)
    | Information(information: InformationUnit)
    | Fraction(fraction: FractionUnit)
    | Custom(custom: string)

  /** Translates an instrumentation unit into Sentry's vocabulary. Total: the
      ten listed units have an exact counterpart, every other unit survives
      as a custom unit named by its own string form. */
  function ConvertUnit(u: Unit): (m: MetricUnit)
    ensures m.Custom? <==> u.Other?
    ensures u.Other? ==> m.custom == u.name
    ensures m != NoUnit
  {
    match u
    case Percent => Fraction(FractionUnit.Percent)
    case Seconds => Duration(Second)
    case Milliseconds => Duration(MilliSecond)
    case Microseconds => Duration(MicroSecond)
    case Nanoseconds => Duration(NanoSecond)
    case Tebibytes => Information(TebiByte)
    case Gigibytes => Information(GibiByte)
    case Mebibytes => Information(MebiByte)
    case Kibibytes => Information(KibiByte)
    case Bytes => Information(Byte)
    case Other(name) => Custom(name)
  }

  /** The table in `convert_unit`, written as data: each listed
      instrumentation unit next to the Sentry unit it becomes. */
  const UnitTable: seq<(Unit, MetricUnit)> := [
    (Unit.Percent, Fraction(FractionUnit.Percent)),
    (Seconds, Duration(Second)),
    (Milliseconds, Duration(MilliSecond)),
    (Microseconds, Duration(MicroSecond)),
    (Nanoseconds, Duration(NanoSecond)),
    (Tebibytes, Information(TebiByte)),
    (Gigibytes, Information(GibiByte)),
    (Mebibytes, Information(MebiByte)),
    (Kibibytes, Information(KibiByte)),
    (Bytes, Information(Byte))
  ]

  /** The Sentry unit the table lists for `u`, or `None` when `u` is not
      listed (the custom fallback is not part of the table). */
  function TableLookup(u: Unit, table: seq<(Unit, MetricUnit)>): Option<MetricUnit>
  {
    if table == [] then None
    else if table[0].0 == u then Some(table[0].1)
    else TableLookup(u, table[1..])
  }

  /** `ConvertUnit` agrees with the table on every unit: a listed unit gets
      its listed counterpart, an unlisted one becomes `Custom` of its name. */
  lemma ConvertUnitFollowsTable(u: Unit)
    ensures u.Other? ==> TableLookup(u, UnitTable) == None && ConvertUnit(u) == Custom(u.name)
    ensures !u.Other? ==> TableLookup(u, UnitTable) == Some(ConvertUnit(u))
  {
    var i := match u
      case Percent => 0 case Seconds => 1 case Milliseconds => 2
      case Microseconds => 3 case Nanoseconds => 4 case Tebibytes => 5
      case Gigibytes => 6 case Mebibytes => 7 case Kibibytes => 8
      case Bytes => 9 case Other(_) => 10;
    if u.Other? {
      TableLookupAt(u, UnitTable, 10);
    } else {
      assert UnitTable[i] == (u, ConvertUnit(u));
      TableLookupAt(u, UnitTable, i);
    }
  }

  /** The table lookup finds the first entry for `u`, or nothing when `u`
      is not listed among the first `k` entries and `k` is the table's end. */
  lemma {:induction false} TableLookupAt(u: Unit, table: seq<(Unit, MetricUnit)>, k: nat)
    requires k <= |table|
    requires forall j :: 0 <= j < k ==> table[j].0 != u
    ensures k < |table| && table[k].0 == u ==> TableLookup(u, table) == Some(table[k].1)
    ensures k == |table| ==> TableLookup(u, table) == None
  {
    if table != [] && k > 0 {
      TableLookupAt(u, table[1..], k - 1);
    }
  }

  /** The partial inverse of `ConvertUnit`: which instrumentation unit, if
      any, translates to `m`. */
  function TranslatedFrom(m: MetricUnit): Option<Unit>
  {
    match m
    case NoUnit => None
    case Fraction(f) => if f == FractionUnit.Percent then Some(Unit.Percent) else None
    case Duration(d) =>
      (match d
       case Second => Some(Seconds)
       case MilliSecond => Some(Milliseconds)
       case MicroSecond => Some(Microseconds)
       case NanoSecond => Some(Nanoseconds)
       case _ => None)
    case Information(i) =>
      (match i
       case TebiByte => Some(Tebibytes)
       case GibiByte => Some(Gigibytes)
       case MebiByte => Some(Mebibytes)
       case KibiByte => Some(Kibibytes)
       case Byte => Some(Bytes)
       case _ => None)
    case Custom(name) => Some(Other(name))
  }

  /** The translation loses nothing: every unit is recovered from its
      translation, and `TranslatedFrom` names exactly the units that
      translate to `m`. Hence distinct units never share a Sentry unit. */
  lemma ConvertUnitRoundTrip(u: Unit, m: MetricUnit)
    ensures TranslatedFrom(ConvertUnit(u)) == Some(u)
    ensures TranslatedFrom(m) == Some(u) <==> ConvertUnit(u) == m
  {
  }
}
