/**
 * The reading transform of `read_MTEC_data`: from the raw registers of
 * one category read to the dict of metrics that gets published, with
 * the derived consumption and rate metrics. It is all-or-nothing: a
 * missing register or a string where arithmetic is needed gives None,
 * never a partial bundle.
 */
module Readings {
  import opened Wrappers
  import opened Values
  import opened Catalog

  /** The names under which the bridge publishes metrics. */
  datatype MetricName =
    | ApiDate | SerialNo | FirmwareVersion
    | InverterDate | InverterStatus | PV | Grid | Battery | Inverter | Backup | BatterySoc
    | GridFeed | GridPurchase | BatteryCharge | BatteryDischarge
    | Consumption | AutarkyRate | OwnConsumptionRate

  /** The dict key (and topic suffix) of a metric. */
  function Key(n: MetricName): string {
    match n
    case ApiDate => "api_date"
    case SerialNo => "serial_no"
    case FirmwareVersion => "firmware_version"
    case InverterDate => "inverter_date"
    case InverterStatus => "inverter_status"
    case PV => "PV"
    case Grid => "grid"
    case Battery => "battery"
    case Inverter => "inverter"
    case Backup => "backup"
    case BatterySoc => "battery_SOC"
    case GridFeed => "grid_feed"
    case GridPurchase => "grid_purchase"
    case BatteryCharge => "battery_charge"
    case BatteryDischarge => "battery_discharge"
    case Consumption => "consumption"
    case AutarkyRate => "autarky_rate"
    case OwnConsumptionRate => "own_consumption_rate"
  }

  /** A bundle entry: a raw register passed through whole (a dict with a
      "value" in Python), or a plain value computed by the bridge. */
  datatype Metric = Reading(register: RegisterValue) | Derived(scalar: Scalar)

  /** The items of an insertion-ordered dict of metrics, as Python
      builds it: each metric name once, in the order it was set. */
  type Bundle = seq<(MetricName, Metric)>

  /** No metric name occurs twice, as in any dict. */
  predicate UniqueNames(b: Bundle) {
    forall i, j :: 0 <= i < j < |b| ==> b[i].0 != b[j].0
  }

  /** The bundle's metric names are `names`, in that order. */
  predicate NamedAs(b: Bundle, names: seq<MetricName>) {
    |b| == |names| && forall i :: 0 <= i < |b| ==> b[i].0 == names[i]
  }

  /** `b[n]` on the dict: the metric stored under `n`, if any. */
  function Get(b: Bundle, n: MetricName): Option<Metric> {
    if b == [] then None else if b[0].0 == n then Some(b[0].1) else Get(b[1..], n)
  }

  /** The registers the `day` and `total` categories read, by role. */
  datatype EnergyRegisters = EnergyRegisters(
    pv: string, gridFeed: string, gridPurchase: string,
    batteryCharge: string, batteryDischarge: string)

  const DayRegisters := EnergyRegisters("31005", "31000", "31001", "31003", "31004")
  const TotalRegisters := EnergyRegisters("31112", "31102", "31104", "31108", "31110")

  function EnergyIds(ids: EnergyRegisters): seq<string> {
    [ids.pv, ids.gridFeed, ids.gridPurchase, ids.batteryCharge, ids.batteryDischarge]
  }

  /** The metric names of a successful read, in insertion order. */
  function MetricNames(c: Category): seq<MetricName> {
    match c
    case Config => [ApiDate, SerialNo, FirmwareVersion]
    case Current => [ApiDate, InverterDate, InverterStatus, PV, Grid, Battery,
                     Inverter, Backup, Consumption, BatterySoc]
    case _ => [ApiDate, PV, GridFeed, GridPurchase, BatteryCharge,
               BatteryDischarge, Consumption, AutarkyRate, OwnConsumptionRate]
  }

  function EnergyPassThrough(ids: EnergyRegisters): seq<(MetricName, string)> {
    [(PV, ids.pv), (GridFeed, ids.gridFeed), (GridPurchase, ids.gridPurchase),
     (BatteryCharge, ids.batteryCharge), (BatteryDischarge, ids.batteryDischarge)]
  }

  /** The metrics that are a register passed through unchanged, as
      (metric name, register id) pairs. */
  function PassThrough(c: Category): seq<(MetricName, string)> {
    match c
    case Config => [(SerialNo, "10000"), (FirmwareVersion, "10011")]
    case Current =>
      [(InverterDate, "10100"), (InverterStatus, "10105"), (PV, "11028"), (Grid, "11000"),
       (Battery, "30258"), (Inverter, "11016"), (Backup, "30230"), (BatterySoc, "33000")]
    case Day => EnergyPassThrough(DayRegisters)
    case Total => EnergyPassThrough(TotalRegisters)
  }

  /** The register ids the transform indexes, in the order it reads them. */
  function Indexed(c: Category): seq<string> {
    match c
    case Config => Registers(Config)
    case Current => Registers(Current)
    case Day => EnergyIds(DayRegisters)
    case Total => EnergyIds(TotalRegisters)
  }

  /** The registers whose values take part in arithmetic. */
  function Arithmetic(c: Category): seq<string> {
    match c
    case Config => []
    case Current => ["11016", "11000"]
    case Day => EnergyIds(DayRegisters)
    case Total => EnergyIds(TotalRegisters)
  }

  /** Every id in `ids` is a key of `d` (else Python raises a KeyError). */
  predicate Present(d: RawSet, ids: seq<string>) {
    forall id :: id in ids ==> id in d
  }

  /** Every id in `ids` is present with a number. */
  predicate Numeric(d: RawSet, ids: seq<string>) {
    forall id :: id in ids ==> id in d && IsNumber(d[id].value)
  }

  /** `100*(1 - part/whole)`; None where Python raises. */
  function Rate(part: Scalar, whole: Scalar): (r: Option<Scalar>)
    ensures r.Some? <==> IsNumber(part) && IsNumber(whole) && Real(whole) != 0.0
    ensures r.Some? ==> r.value == Float(100.0 * (1.0 - Real(part) / Real(whole)))
  {
    var share :- Div(part, whole);
    Some(Times(100, Sub(Int(1), share).value))
  }

  /** The dict built for `config`, in insertion order. */
  function ConfigItems(stamp: string, serial: RegisterValue, firmware: RegisterValue): (b: Bundle)
    ensures UniqueNames(b) && NamedAs(b, MetricNames(Config))
  {
    [(ApiDate, Derived(Str(stamp))),
     (SerialNo, Reading(serial)),
     (FirmwareVersion, Reading(firmware))]
  }

  /** The dict built for `current`, in insertion order. */
  function CurrentItems(stamp: string, date: RegisterValue, status: RegisterValue, pv: RegisterValue,
                        grid: RegisterValue, battery: RegisterValue, inverter: RegisterValue,
                        backup: RegisterValue, consumption: Scalar, soc: RegisterValue): (b: Bundle)
    ensures UniqueNames(b) && NamedAs(b, MetricNames(Current))
  {
    [(ApiDate, Derived(Str(stamp))),
     (InverterDate, Reading(date)),
     (InverterStatus, Reading(status)),
     (PV, Reading(pv)),
     (Grid, Reading(grid)),
     (Battery, Reading(battery)),
     (Inverter, Reading(inverter)),
     (Backup, Reading(backup)),
     (Consumption, Derived(consumption)),
     (BatterySoc, Reading(soc))]
  }

  /** The dict built for `day` and `total`, in insertion order. */
  function EnergyItems(stamp: string, pv: RegisterValue, feed: RegisterValue, purchase: RegisterValue,
                       charge: RegisterValue, discharge: RegisterValue,
                       consumption: Scalar, autarky: Scalar, ownRate: Scalar): (b: Bundle)
    ensures UniqueNames(b) && NamedAs(b, MetricNames(Day))
  {
    [(ApiDate, Derived(Str(stamp))),
     (PV, Reading(pv)),
     (GridFeed, Reading(feed)),
     (GridPurchase, Reading(purchase)),
     (BatteryCharge, Reading(charge)),
     (BatteryDischarge, Reading(discharge)),
     (Consumption, Derived(consumption)),
     (AutarkyRate, Derived(autarky)),
     (OwnConsumptionRate, Derived(ownRate))]
  }

  /** Lines 53-55: succeeds exactly when data came back holding both
      catalogued registers, and then passes them through. */
  function ConfigBundle(data: Option<RawSet>, stamp: string): (r: Option<Bundle>)
    ensures r.Some? <==> data.Some? && Present(data.value, Registers(Config))
    ensures r.Some? ==> r.value == ConfigItems(stamp, data.value["10000"], data.value["10011"])
    ensures r.Some? ==> UniqueNames(r.value) && NamedAs(r.value, MetricNames(Config))
                        && r.value[0] == (ApiDate, Derived(Str(stamp)))
  {
    var d :- data;
    if !Present(d, Indexed(Config)) then None
    else Some(ConfigItems(stamp, d["10000"], d["10011"]))
  }

  /** Lines 57-66: succeeds exactly when all catalogued registers came
      back and the two used in the subtraction are numbers. */
  function CurrentBundle(data: Option<RawSet>, stamp: string): (r: Option<Bundle>)
    ensures r.Some? <==>
            data.Some? && Present(data.value, Registers(Current)) && Numeric(data.value, Arithmetic(Current))
    ensures r.Some? ==> UniqueNames(r.value) && NamedAs(r.value, MetricNames(Current))
                        && r.value[0] == (ApiDate, Derived(Str(stamp)))
  {
    var d :- data;
    if !Present(d, Indexed(Current)) then None
    else
      var consumption :- Sub(d["11016"].value, d["11000"].value);
      Some(CurrentItems(stamp, d["10100"], d["10105"], d["11028"], d["11000"], d["30258"],
                        d["11016"], d["30230"], consumption, d["33000"]))
  }

  /** Lines 68-86: succeeds exactly when the five counters came back as
      numbers; a non-positive divisor gives a rate of 0, never a failure. */
  function EnergyBundle(ids: EnergyRegisters, data: Option<RawSet>, stamp: string): (r: Option<Bundle>)
    ensures r.Some? <==> data.Some? && Numeric(data.value, EnergyIds(ids))
    ensures r.Some? ==> UniqueNames(r.value) && NamedAs(r.value, MetricNames(Day))
                        && r.value[0] == (ApiDate, Derived(Str(stamp)))
  {
    var d :- data;
    if !Present(d, EnergyIds(ids)) then None
    else
      var pv, feed, purchase := d[ids.pv], d[ids.gridFeed], d[ids.gridPurchase];
      var charge, discharge := d[ids.batteryCharge], d[ids.batteryDischarge];
      var withPurchase :- Add(pv.value, purchase.value);
      var supplied :- Add(withPurchase, discharge.value);
      var lessFeed :- Sub(supplied, feed.value);
      var consumption :- Sub(lessFeed, charge.value);
      var autarky := if Positive(consumption).value then Rate(purchase.value, consumption).value else Int(0);
      var ownRate := if Positive(pv.value).value then Rate(feed.value, pv.value).value else Int(0);
      Some(EnergyItems(stamp, pv, feed, purchase, charge, discharge, consumption, autarky, ownRate))
  }

  /** The transform for one of the four categories: a successful read
      yields the category's metrics, each name once, in insertion order,
      with the read time first. */
  function Transform(c: Category, data: Option<RawSet>, stamp: string): (r: Option<Bundle>)
    ensures r.Some? ==> UniqueNames(r.value) && NamedAs(r.value, MetricNames(c))
                        && r.value[0] == (ApiDate, Derived(Str(stamp)))
  {
    match c
    case Config => ConfigBundle(data, stamp)
    case Current => CurrentBundle(data, stamp)
    case Day => EnergyBundle(DayRegisters, data, stamp)
    case Total => EnergyBundle(TotalRegisters, data, stamp)
  }

  /**
   * `read_MTEC_data` after the register read: `data` is what the
   * transport returned (None when it returned nothing), `stamp` the
   * server's local time of the read, formatted. A name outside the
   * four categories matches no branch, so only the time stamp is set.
   */
  function ReadData(category: string, data: Option<RawSet>, stamp: string): (r: Option<Bundle>)
    ensures Parse(category).None? ==> r == Some([(ApiDate, Derived(Str(stamp)))])
    ensures Parse(category).Some? ==> r == Transform(Parse(category).value, data, stamp)
  {
    match Parse(category)
    case None => Some([(ApiDate, Derived(Str(stamp)))])
    case Some(c) => Transform(c, data, stamp)
  }

  /* ---------- Reference definitions of the derived metrics ---------- */

  function EnergyOf(c: Category): EnergyRegisters
    requires c == Day || c == Total
  {
    if c == Day then DayRegisters else TotalRegisters
  }

  /** The value of a register known to be present and numeric. */
  function Num(d: RawSet, id: string): real
    requires id in d && IsNumber(d[id].value)
  {
    Real(d[id].value)
  }

  /** Energy consumed: produced + purchased + discharged - fed in - charged. */
  function ConsumedEnergy(ids: EnergyRegisters, d: RawSet): real
    requires Numeric(d, EnergyIds(ids))
  {
    Num(d, ids.pv) + Num(d, ids.gridPurchase) + Num(d, ids.batteryDischarge)
    - Num(d, ids.gridFeed) - Num(d, ids.batteryCharge)
  }

  /** Whether one of the five counters is a float, which makes the
      consumption a float. */
  predicate FloatCounter(ids: EnergyRegisters, d: RawSet)
    requires Numeric(d, EnergyIds(ids))
  {
    d[ids.pv].value.Float? || d[ids.gridFeed].value.Float? || d[ids.gridPurchase].value.Float?
    || d[ids.batteryCharge].value.Float? || d[ids.batteryDischarge].value.Float?
  }

  /** The share of consumption not bought from the grid, in percent;
      0 (an int) when nothing was consumed. */
  function AutarkyPercent(ids: EnergyRegisters, d: RawSet): Scalar
    requires Numeric(d, EnergyIds(ids))
  {
    var c := ConsumedEnergy(ids, d);
    if c > 0.0 then Float(100.0 * (1.0 - Num(d, ids.gridPurchase) / c)) else Int(0)
  }

  /** The share of PV production not fed into the grid, in percent;
      0 (an int) when nothing was produced. */
  function OwnConsumptionPercent(ids: EnergyRegisters, d: RawSet): Scalar
    requires Numeric(d, EnergyIds(ids))
  {
    var pv := Num(d, ids.pv);
    if pv > 0.0 then Float(100.0 * (1.0 - Num(d, ids.gridFeed) / pv)) else Int(0)
  }

  /* ---------- Properties of the transform ---------- */

  /** A dict lookup finds the value stored under a name. */
  lemma {:induction false} GetFound(b: Bundle, k: nat)
    requires UniqueNames(b) && k < |b|
    ensures Get(b, b[k].0) == Some(b[k].1)
  {
    if k > 0 {
      assert b[0].0 != b[k].0;
      assert b[1..][k - 1] == b[k];
      GetFound(b[1..], k - 1);
    }
  }

  /** The registers the transform indexes are exactly those the catalog
      requests for the category, and arithmetic only uses those. */
  lemma CatalogMatchesTransform(c: Category)
    ensures forall id :: id in Registers(c) <==> id in Indexed(c)
    ensures forall id :: id in Arithmetic(c) ==> id in Registers(c)
    ensures forall p :: p in PassThrough(c) ==> p.1 in Registers(c)
  {
  }

  /** The derived `day`/`total` entries agree with their reference definitions. */
  lemma EnergyConsumptionEntry(ids: EnergyRegisters, data: Option<RawSet>, stamp: string)
    ensures var r := EnergyBundle(ids, data, stamp);
            r.Some? ==>
              && Numeric(data.value, EnergyIds(ids))
              && |r.value| == 9
              && r.value[6].1.Derived? && IsNumber(r.value[6].1.scalar)
              && Real(r.value[6].1.scalar) == ConsumedEnergy(ids, data.value)
              && (if FloatCounter(ids, data.value) then r.value[6].1.scalar.Float? else r.value[6].1.scalar.Int?)
  {
  }

  lemma EnergyAutarkyEntry(ids: EnergyRegisters, data: Option<RawSet>, stamp: string)
    ensures var r := EnergyBundle(ids, data, stamp);
            r.Some? ==>
              && Numeric(data.value, EnergyIds(ids))
              && |r.value| == 9
              && r.value[7].1 == Derived(AutarkyPercent(ids, data.value))
  {
    EnergyConsumptionEntry(ids, data, stamp);
  }

  lemma EnergyOwnRateEntry(ids: EnergyRegisters, data: Option<RawSet>, stamp: string)
    ensures var r := EnergyBundle(ids, data, stamp);
            r.Some? ==>
              && Numeric(data.value, EnergyIds(ids))
              && |r.value| == 9
              && r.value[8].1 == Derived(OwnConsumptionPercent(ids, data.value))
  {
  }

  /** All or nothing: the read succeeds exactly when every register the
      catalog lists is present and every register used in arithmetic is
      a number. In particular no division by zero can make it fail. */
  lemma TransformSucceeds(c: Category, data: Option<RawSet>, stamp: string)
    ensures Transform(c, data, stamp).Some? <==>
            data.Some? && Present(data.value, Registers(c)) && Numeric(data.value, Arithmetic(c))
  {
    CatalogMatchesTransform(c);
    match c
    case Config =>
    case Current =>
    case Day =>
    case Total =>
  }

  /** Removing any one requested register makes the read fail. */
  lemma MissingRegisterFails(c: Category, d: RawSet, id: string, stamp: string)
    requires id in Registers(c)
    ensures Transform(c, Some(d - {id}), stamp).None?
  {
    TransformSucceeds(c, Some(d - {id}), stamp);
  }

  /** A string where arithmetic needs a number makes the read fail. */
  lemma StringOperandFails(c: Category, d: RawSet, id: string, stamp: string)
    requires id in Arithmetic(c) && id in d && d[id].value.Str?
    ensures Transform(c, Some(d), stamp).None?
  {
    TransformSucceeds(c, Some(d), stamp);
  }

  /** Each metric of `pt` is stored in `b` as its register of `d`, unchanged. */
  predicate PassesThrough(b: Bundle, d: RawSet, pt: seq<(MetricName, string)>) {
    forall i :: 0 <= i < |pt| ==> pt[i].1 in d && Get(b, pt[i].0) == Some(Reading(d[pt[i].1]))
  }

  lemma ConfigPassesThrough(d: RawSet, b: Bundle)
    requires Present(d, Indexed(Config))
    requires Get(b, SerialNo) == Some(Reading(d["10000"]))
    requires Get(b, FirmwareVersion) == Some(Reading(d["10011"]))
    ensures PassesThrough(b, d, PassThrough(Config))
  {
  }

  lemma CurrentPassesThrough(d: RawSet, b: Bundle)
    requires Present(d, Indexed(Current))
    requires Get(b, InverterDate) == Some(Reading(d["10100"]))
    requires Get(b, InverterStatus) == Some(Reading(d["10105"]))
    requires Get(b, PV) == Some(Reading(d["11028"]))
    requires Get(b, Grid) == Some(Reading(d["11000"]))
    requires Get(b, Battery) == Some(Reading(d["30258"]))
    requires Get(b, Inverter) == Some(Reading(d["11016"]))
    requires Get(b, Backup) == Some(Reading(d["30230"]))
    requires Get(b, BatterySoc) == Some(Reading(d["33000"]))
    ensures PassesThrough(b, d, PassThrough(Current))
  {
    var pt := PassThrough(Current);
    forall i | 0 <= i < |pt|
      ensures pt[i].1 in d && Get(b, pt[i].0) == Some(Reading(d[pt[i].1]))
    {
      if i < 4 {
        assert pt[i] in pt[..4];
      } else {
        assert pt[i] in pt[4..];
      }
    }
  }

  lemma EnergyPassesThrough(ids: EnergyRegisters, d: RawSet, b: Bundle)
    requires Present(d, EnergyIds(ids))
    requires Get(b, PV) == Some(Reading(d[ids.pv]))
    requires Get(b, GridFeed) == Some(Reading(d[ids.gridFeed]))
    requires Get(b, GridPurchase) == Some(Reading(d[ids.gridPurchase]))
    requires Get(b, BatteryCharge) == Some(Reading(d[ids.batteryCharge]))
    requires Get(b, BatteryDischarge) == Some(Reading(d[ids.batteryDischarge]))
    ensures PassesThrough(b, d, EnergyPassThrough(ids))
  {
  }

  /** Every pass-through metric is its register, unchanged. */
  lemma TransformPassThrough(c: Category, data: Option<RawSet>, stamp: string)
    ensures var r := Transform(c, data, stamp);
            r.Some? ==> data.Some? && PassesThrough(r.value, data.value, PassThrough(c))
  {
    match c
    case Config => ConfigPassThrough(data, stamp);
    case Current => CurrentPassThrough(data, stamp);
    case Day => EnergyPassThroughHolds(DayRegisters, data, stamp);
    case Total => EnergyPassThroughHolds(TotalRegisters, data, stamp);
  }

  lemma ConfigPassThrough(data: Option<RawSet>, stamp: string)
    ensures var r := ConfigBundle(data, stamp);
            r.Some? ==> data.Some? && PassesThrough(r.value, data.value, PassThrough(Config))
  {
    var r := ConfigBundle(data, stamp);
    if r.Some? {
      GetFound(r.value, 1);
      GetFound(r.value, 2);
      ConfigPassesThrough(data.value, r.value);
    }
  }

  lemma CurrentPassThrough(data: Option<RawSet>, stamp: string)
    ensures var r := CurrentBundle(data, stamp);
            r.Some? ==> data.Some? && PassesThrough(r.value, data.value, PassThrough(Current))
  {
    var r := CurrentBundle(data, stamp);
    if r.Some? {
      var b := r.value;
      GetFound(b, 1);
      GetFound(b, 2);
      GetFound(b, 3);
      GetFound(b, 4);
      GetFound(b, 5);
      GetFound(b, 6);
      GetFound(b, 7);
      GetFound(b, 9);
      CurrentPassesThrough(data.value, b);
    }
  }

  lemma EnergyPassThroughHolds(ids: EnergyRegisters, data: Option<RawSet>, stamp: string)
    ensures var r := EnergyBundle(ids, data, stamp);
            r.Some? ==> data.Some? && PassesThrough(r.value, data.value, EnergyPassThrough(ids))
  {
    var r := EnergyBundle(ids, data, stamp);
    if r.Some? {
      var b := r.value;
      GetFound(b, 1);
      GetFound(b, 2);
      GetFound(b, 3);
      GetFound(b, 4);
      GetFound(b, 5);
      EnergyPassesThrough(ids, data.value, b);
    }
  }

  /** `current`: consumption is inverter power minus grid power, an int
      unless one of them is a float. */
  lemma CurrentConsumption(data: Option<RawSet>, stamp: string)
    ensures var r := Transform(Current, data, stamp);
            r.Some? ==>
              var d := data.value;
              var m := Get(r.value, Consumption);
              && Numeric(d, Arithmetic(Current))
              && m.Some? && m.value.Derived? && IsNumber(m.value.scalar)
              && Real(m.value.scalar) == Num(d, "11016") - Num(d, "11000")
              && (if d["11016"].value.Float? || d["11000"].value.Float?
                  then m.value.scalar.Float? else m.value.scalar.Int?)
  {
    var r := Transform(Current, data, stamp);
    if r.Some? {
      GetFound(r.value, 8);
    }
  }

  /** `day` and `total`: consumption, autarky rate and own-consumption
      rate agree with their reference definitions, the rates being 0
      exactly where their divisor is not positive. */
  lemma EnergyDerivations(c: Category, data: Option<RawSet>, stamp: string)
    requires c == Day || c == Total
    ensures var r := Transform(c, data, stamp);
            r.Some? ==>
              var ids, d := EnergyOf(c), data.value;
              var m := Get(r.value, Consumption);
              && Numeric(d, EnergyIds(ids))
              && m.Some? && m.value.Derived? && IsNumber(m.value.scalar)
              && Real(m.value.scalar) == ConsumedEnergy(ids, d)
              && (if FloatCounter(ids, d) then m.value.scalar.Float? else m.value.scalar.Int?)
              && Get(r.value, AutarkyRate) == Some(Derived(AutarkyPercent(ids, d)))
              && Get(r.value, OwnConsumptionRate) == Some(Derived(OwnConsumptionPercent(ids, d)))
  {
    var ids := EnergyOf(c);
    var r := EnergyBundle(ids, data, stamp);
    if r.Some? {
      EnergyConsumptionEntry(ids, data, stamp);
      EnergyAutarkyEntry(ids, data, stamp);
      EnergyOwnRateEntry(ids, data, stamp);
      GetFound(r.value, 6);
      GetFound(r.value, 7);
      GetFound(r.value, 8);
    }
  }

  /** A share of a positive whole that is no larger than the whole is a
      percentage between 0 and 100. */
  lemma ShareIsPercentage(part: real, whole: real)
    requires 0.0 <= part <= whole && whole > 0.0
    ensures 0.0 <= 100.0 * (1.0 - part / whole) <= 100.0
  {
    assert part / whole <= 1.0 by {
      assert part / whole * whole == part;
    }
    assert 0.0 <= part / whole;
  }

  /** With counters that only count up and a purchase that does not
      exceed consumption (and a feed-in that does not exceed production),
      both rates are percentages. */
  lemma RatesArePercentages(ids: EnergyRegisters, d: RawSet)
    requires Numeric(d, EnergyIds(ids))
    requires 0.0 <= Num(d, ids.gridPurchase) <= ConsumedEnergy(ids, d)
    requires 0.0 <= Num(d, ids.gridFeed) <= Num(d, ids.pv)
    ensures var a := AutarkyPercent(ids, d); IsNumber(a) && 0.0 <= Real(a) <= 100.0
    ensures var o := OwnConsumptionPercent(ids, d); IsNumber(o) && 0.0 <= Real(o) <= 100.0
  {
    if ConsumedEnergy(ids, d) > 0.0 {
      ShareIsPercentage(Num(d, ids.gridPurchase), ConsumedEnergy(ids, d));
    }
    if Num(d, ids.pv) > 0.0 {
      ShareIsPercentage(Num(d, ids.gridFeed), Num(d, ids.pv));
    }
  }

  /* ---------- Worked examples ---------- */

  /** Inverter 1200 W and grid 500 W: the house consumes 700 W. */
  lemma CurrentExample(d: RawSet, stamp: string)
    requires Present(d, Registers(Current))
    requires d["11016"].value == Int(1200) && d["11000"].value == Int(500)
    ensures var r := ReadData("current", Some(d), stamp);
            r.Some? && Get(r.value, Consumption) == Some(Derived(Int(700)))
  {
    CurrentConsumption(Some(d), stamp);
  }

  /** A day with 10 kWh produced, 2 fed in, 1 bought, 3 charged and 1
      discharged: 7 kWh consumed, autarky 100*(1-1/7) and own consumption
      80 percent. */
  lemma DayExample(d: RawSet, stamp: string)
    requires Present(d, Registers(Day))
    requires d["31005"].value == Int(10) && d["31000"].value == Int(2) && d["31001"].value == Int(1)
    requires d["31003"].value == Int(3) && d["31004"].value == Int(1)
    ensures var r := ReadData("day", Some(d), stamp);
            && r.Some?
            && Get(r.value, Consumption) == Some(Derived(Int(7)))
            && Get(r.value, AutarkyRate) == Some(Derived(Float(600.0 / 7.0)))
            && Get(r.value, OwnConsumptionRate) == Some(Derived(Float(80.0)))
  {
    var ids := DayRegisters;
    assert Numeric(d, EnergyIds(ids));
    assert ConsumedEnergy(ids, d) == 7.0;
    assert AutarkyPercent(ids, d) == Float(600.0 / 7.0) by {
      assert 100.0 * (1.0 - 1.0 / 7.0) == 600.0 / 7.0;
    }
    assert OwnConsumptionPercent(ids, d) == Float(80.0) by {
      assert 100.0 * (1.0 - 2.0 / 10.0) == 80.0;
    }
    ParseName(Day);
    EnergyDerivations(Day, Some(d), stamp);
  }
}
