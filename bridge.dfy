/**
 * The main loop of the bridge: one iteration reads the configuration
 * when it is due (and keeps retrying it until it succeeds once), then
 * the current power flows on every iteration, the day and total energy
 * counters when they are due, and sleeps. Reads, publishes, the Home
 * Assistant discovery call and the sleep are recorded as events; the
 * clock, the register reads and the float format are parameters.
 */
module Bridge {
  import opened Wrappers
  import opened Values
  import opened Catalog
  import opened Readings
  import opened Mqtt

  /** The configuration keys the loop uses. */
  datatype Settings = Settings(
    mqttTopic: string,               // MQTT_TOPIC
    formatFloat: real -> string,     // MQTT_FLOAT_FORMAT.format
    refreshConfigHours: nat,         // REFRESH_CONFIG_H
    refreshDayMinutes: nat,          // REFRESH_DAY_M
    refreshTotalMinutes: nat,        // REFRESH_TOTAL_M
    refreshCurrentSeconds: nat,      // REFRESH_CURRENT_S
    hassEnable: bool)                // HASS_ENABLE

  /** What one `read_MTEC_data` call gets from the outside world: the
      registers the transport returned (None for nothing), the local time
      of the read as formatted by `strftime`, and the clock (in seconds)
      when `datetime.now()` is next called after the read and its
      publishes, which is where the next read is scheduled from. */
  datatype ReadOutcome = ReadOutcome(data: Option<RawSet>, stamp: string, finishedAt: int)

  /** The outcome of each of the four reads one iteration may make. */
  datatype Reads = Reads(config: ReadOutcome, current: ReadOutcome, day: ReadOutcome, total: ReadOutcome)

  /** What the loop does to the outside world. */
  datatype Event =
    | Read(category: Category)            // read_MTEC_data(api, category)
    | Publish(message: Message)           // mqtt.mqtt_publish(topic, payload)
    | HassInitialize(serial: string)      // hass.initialize(serial)
    | Sleep(seconds: nat)                 // time.sleep(REFRESH_CURRENT_S)

  /** The loop's variables, and the clock at the start of the last iteration. */
  datatype Schedule = Schedule(
    clock: int,
    nextReadConfig: int, nextReadDay: int, nextReadTotal: int,
    topicBase: Option<string>,
    hassInitialized: bool)
  {
    /** Until the first configuration read succeeds, that read stays due. */
    predicate Valid() {
      topicBase.None? ==> nextReadConfig <= clock
    }
  }

  /** The state before the loop starts: every read due at once. */
  function Start(startTime: int): (s: Schedule)
    ensures s.clock == startTime
    ensures s.nextReadConfig <= s.clock && s.nextReadDay <= s.clock && s.nextReadTotal <= s.clock
    ensures s.Valid() && s.topicBase.None? && !s.hassInitialized
  {
    Schedule(startTime, startTime, startTime, startTime, None, false)
  }

  /** The publishes of one bundle, as events. */
  function Posted(ms: seq<Message>): (events: seq<Event>)
    ensures |events| == |ms|
    ensures forall i :: 0 <= i < |ms| ==> events[i] == Publish(ms[i])
  {
    seq(|ms|, i requires 0 <= i < |ms| => Publish(ms[i]))
  }

  /** A configuration read that would succeed returns the serial number
      as text (the source concatenates it into the topic, and raises
      otherwise). A read missing register 10000 or 10011 fails quietly
      before that, whatever the serial's type. */
  predicate SerialIsText(data: Option<RawSet>) {
    data.Some? && "10000" in data.value && "10011" in data.value ==> data.value["10000"].value.Str?
  }

  /** Every read ends no earlier than the iteration started. */
  predicate Timely(now: int, r: Reads) {
    r.config.finishedAt >= now && r.day.finishedAt >= now && r.total.finishedAt >= now
  }

  /** The topic base `MQTT_TOPIC/<serial>/`: the serial can be read back
      from between the topic's separator and the trailing slash. */
  function TopicBase(cfg: Settings, serial: string): (t: string)
    ensures |t| == |cfg.mqttTopic| + |serial| + 2
    ensures t[..|cfg.mqttTopic|] == cfg.mqttTopic && t[|cfg.mqttTopic|] == '/'
    ensures t[|cfg.mqttTopic| + 1..|t| - 1] == serial && t[|t| - 1] == '/'
  {
    cfg.mqttTopic + "/" + serial + "/"
  }

  /** The bundle `read_MTEC_data(api, c)` returns for a read. */
  function ReadBundle(c: Category, r: ReadOutcome): Option<Bundle> {
    ReadData(Name(c), r.data, r.stamp)
  }

  /** A read of category `c` that returned `pvdata` and, when it
      succeeded, its publishes under `base + c + "/"`. */
  function Fetch(cfg: Settings, c: Category, base: string, pvdata: Option<Bundle>): (events: seq<Event>)
    ensures |events| >= 1 && events[0] == Read(c)
    ensures pvdata.None? ==> events == [Read(c)]
    ensures pvdata.Some? ==>
              |events| == 1 + |pvdata.value|
              && forall i :: 1 <= i < |events| ==>
                   events[i] == Publish(MessageFor(pvdata.value[i - 1], base + Name(c) + "/", cfg.formatFloat))
  {
    [Read(c)] + if pvdata.Some? then Posted(Publishes(pvdata.value, base + Name(c) + "/", cfg.formatFloat)) else []
  }

  /** The configuration part of an iteration (lines 143-150). */
  function ConfigPhase(cfg: Settings, s: Schedule, now: int, r: ReadOutcome): (out: (Schedule, seq<Event>))
    requires SerialIsText(r.data)
    ensures out.0.clock == s.clock && out.0.nextReadDay == s.nextReadDay && out.0.nextReadTotal == s.nextReadTotal
    ensures now < s.nextReadConfig ==> out == (s, [])
    ensures s.nextReadConfig <= now ==> |out.1| >= 1 && out.1[0] == Read(Config)
    ensures s.nextReadConfig <= now && ReadBundle(Config, r).None? ==> out == (s, [Read(Config)])
    ensures out.0.topicBase.Some? <==> s.topicBase.Some? || (s.nextReadConfig <= now && ReadBundle(Config, r).Some?)
    ensures s.nextReadConfig <= now && ReadBundle(Config, r).Some? ==>
              && r.data.Some? && "10000" in r.data.value
              && var serial := r.data.value["10000"].value.s;
                 && out.0.topicBase == Some(TopicBase(cfg, serial))
                 && out.1 == Fetch(cfg, Config, TopicBase(cfg, serial), ReadBundle(Config, r))
                             + (if cfg.hassEnable && !s.hassInitialized then [HassInitialize(serial)] else [])
  {
    if now < s.nextReadConfig then (s, [])
    else
      var pvConfig := ReadBundle(Config, r);
      if pvConfig.None? then (s, [Read(Config)])
      else
        assert Present(r.data.value, Registers(Config));
        var serial := r.data.value["10000"].value.s;
        var base := TopicBase(cfg, serial);
        var initialize := cfg.hassEnable && !s.hassInitialized;
        (s.(topicBase := Some(base),
            nextReadConfig := r.finishedAt + cfg.refreshConfigHours * 3600,
            hassInitialized := s.hassInitialized || initialize),
         Fetch(cfg, Config, base, pvConfig) + if initialize then [HassInitialize(serial)] else [])
  }

  /** The day or total part of an iteration (lines 162-173): read when
      due, and reschedule only after a successful read. */
  function Periodic(cfg: Settings, c: Category, next: int, cadenceMinutes: nat, base: string, now: int, r: ReadOutcome)
    : (out: (int, seq<Event>))
    ensures now < next ==> out == (next, [])
    ensures next <= now ==> |out.1| >= 1 && out.1[0] == Read(c)
    ensures next <= now && ReadBundle(c, r).None? ==> out == (next, [Read(c)])
    ensures next <= now && ReadBundle(c, r).Some? ==>
              out.0 == r.finishedAt + cadenceMinutes * 60 && |out.1| == 1 + |ReadBundle(c, r).value|
    ensures next <= now ==> out.1 == Fetch(cfg, c, base, ReadBundle(c, r))
  {
    if now < next then (next, [])
    else
      var pvdata := ReadBundle(c, r);
      (if pvdata.Some? then r.finishedAt + cadenceMinutes * 60 else next, Fetch(cfg, c, base, pvdata))
  }

  /** The reads after the configuration (lines 156-173), once the topic
      base `base` is known: current on every iteration, day and total
      when due. */
  function Measurements(cfg: Settings, s: Schedule, base: string, now: int, r: Reads): (out: (Schedule, seq<Event>))
    ensures out.0 == s.(nextReadDay := out.0.nextReadDay, nextReadTotal := out.0.nextReadTotal)
    ensures |out.1| >= 1 && out.1[0] == Read(Current)
  {
    var currentEvents := Fetch(cfg, Current, base, ReadBundle(Current, r.current));
    var (nextDay, dayEvents) := Periodic(cfg, Day, s.nextReadDay, cfg.refreshDayMinutes, base, now, r.day);
    var (nextTotal, totalEvents) := Periodic(cfg, Total, s.nextReadTotal, cfg.refreshTotalMinutes, base, now, r.total);
    (s.(nextReadDay := nextDay, nextReadTotal := nextTotal), currentEvents + dayEvents + totalEvents)
  }

  /** One iteration of `while run_status:` started at clock `now`: it
      keeps the configuration read due until it first succeeds, moves the
      clock to the iteration's start, and always ends with the sleep. */
  function Step(cfg: Settings, s: Schedule, now: int, r: Reads): (out: (Schedule, seq<Event>))
    requires s.Valid() && s.clock <= now && SerialIsText(r.config.data)
    ensures out.0.Valid() && out.0.clock == now
    ensures |out.1| >= 1 && out.1[|out.1| - 1] == Sleep(cfg.refreshCurrentSeconds)
  {
    var (s1, configEvents) := ConfigPhase(cfg, s.(clock := now), now, r.config);
    if s1.topicBase.None? then
      (s1, configEvents + [Sleep(cfg.refreshCurrentSeconds)])
    else
      var (s2, events) := Measurements(cfg, s1, s1.topicBase.value, now, r);
      (s2, configEvents + events + [Sleep(cfg.refreshCurrentSeconds)])
  }

  /* ---------- Counting discovery calls ---------- */

  lemma AppendAssoc<T>(a: seq<T>, b: seq<T>, c: seq<T>)
    ensures (a + b) + c == a + (b + c)
  {
  }

  /** How many `hass.initialize` calls `events` holds. */
  function InitCount(events: seq<Event>): nat {
    if events == [] then 0
    else (if events[0].HassInitialize? then 1 else 0) + InitCount(events[1..])
  }

  lemma {:induction false} InitCountAppend(a: seq<Event>, b: seq<Event>)
    ensures InitCount(a + b) == InitCount(a) + InitCount(b)
  {
    if a != [] {
      assert (a + b)[0] == a[0];
      assert (a + b)[1..] == a[1..] + b;
      InitCountAppend(a[1..], b);
    } else {
      assert a + b == b;
    }
  }

  lemma {:induction false} InitCountPosted(ms: seq<Message>)
    ensures InitCount(Posted(ms)) == 0
  {
    if ms != [] {
      assert Posted(ms)[1..] == Posted(ms[1..]);
      InitCountPosted(ms[1..]);
    }
  }

  /** Only reads of the configuration and sleeps: what the loop may do
      before it knows the inverter's serial number. */
  predicate ConfigOnly(events: seq<Event>) {
    forall i :: 0 <= i < |events| ==> events[i] == Read(Config) || events[i].Sleep?
  }

  /* ---------- Properties of one iteration ---------- */

  /** Whether the configuration read of this iteration succeeds. */
  predicate ConfigRead(s: Schedule, now: int, r: Reads) {
    s.nextReadConfig <= now && ReadBundle(Config, r.config).Some?
  }

  /** Gating: the topic base is known after an iteration exactly when it
      was known before or the configuration read succeeded; while it is
      unknown the iteration only reads the configuration and sleeps. */
  lemma StepGating(cfg: Settings, s: Schedule, now: int, r: Reads)
    requires s.Valid() && s.clock <= now && SerialIsText(r.config.data)
    ensures var (s', events) := Step(cfg, s, now, r);
            && (s'.topicBase.Some? <==> s.topicBase.Some? || ConfigRead(s, now, r))
            && (s'.topicBase.None? ==> events == [Read(Config), Sleep(cfg.refreshCurrentSeconds)])
  {
  }

  /** A successful configuration read sets the topic base to
      `MQTT_TOPIC/<serial>/` and reschedules the next one; otherwise both
      stay as they were. */
  lemma StepTopicBase(cfg: Settings, s: Schedule, now: int, r: Reads)
    requires s.Valid() && s.clock <= now && SerialIsText(r.config.data)
    ensures var s' := Step(cfg, s, now, r).0;
            if ConfigRead(s, now, r) then
              && "10000" in r.config.data.value
              && s'.topicBase == Some(TopicBase(cfg, r.config.data.value["10000"].value.s))
              && s'.nextReadConfig == r.config.finishedAt + cfg.refreshConfigHours * 3600
            else
              s'.topicBase == s.topicBase && s'.nextReadConfig == s.nextReadConfig
  {
    var s1 := ConfigPhase(cfg, s.(clock := now), now, r.config).0;
    if ConfigRead(s, now, r) {
      var d := r.config.data.value;
      assert "10000" in d && "10011" in d;
      assert s1.topicBase == Some(TopicBase(cfg, d["10000"].value.s));
    }
  }

  /** The day and total reads are rescheduled only after they succeed,
      to the time the read finished plus their cadence. */
  lemma StepCadence(cfg: Settings, s: Schedule, now: int, r: Reads)
    requires s.Valid() && s.clock <= now && SerialIsText(r.config.data)
    ensures var s' := Step(cfg, s, now, r).0;
            && s'.nextReadDay ==
                 (if s'.topicBase.Some? && s.nextReadDay <= now && Transform(Day, r.day.data, r.day.stamp).Some?
                  then r.day.finishedAt + cfg.refreshDayMinutes * 60 else s.nextReadDay)
            && s'.nextReadTotal ==
                 (if s'.topicBase.Some? && s.nextReadTotal <= now && Transform(Total, r.total.data, r.total.stamp).Some?
                  then r.total.finishedAt + cfg.refreshTotalMinutes * 60 else s.nextReadTotal)
  {
    ParseName(Day);
    ParseName(Total);
  }

  /** With reads that finish no earlier than they start, no read is ever
      scheduled earlier than it was. */
  lemma StepMonotone(cfg: Settings, s: Schedule, now: int, r: Reads)
    requires s.Valid() && s.clock <= now && SerialIsText(r.config.data) && Timely(now, r)
    ensures var s' := Step(cfg, s, now, r).0;
            s.nextReadConfig <= s'.nextReadConfig && s.nextReadDay <= s'.nextReadDay
            && s.nextReadTotal <= s'.nextReadTotal
  {
  }

  /** Discovery: `hass.initialize` is called in an iteration exactly when
      Home Assistant is enabled, not yet initialised, and the
      configuration read succeeds, and then the flag is set. */
  lemma StepDiscovery(cfg: Settings, s: Schedule, now: int, r: Reads)
    requires s.Valid() && s.clock <= now && SerialIsText(r.config.data)
    ensures var (s', events) := Step(cfg, s, now, r);
            var called := cfg.hassEnable && !s.hassInitialized && ConfigRead(s, now, r);
            && s'.hassInitialized == (s.hassInitialized || called)
            && InitCount(events) == (if called then 1 else 0)
  {
    var (s1, configEvents) := ConfigPhase(cfg, s.(clock := now), now, r.config);
    ConfigPhaseDiscovery(cfg, s.(clock := now), now, r.config);
    if s1.topicBase.Some? {
      var events := Measurements(cfg, s1, s1.topicBase.value, now, r).1;
      MeasurementsInitCount(cfg, s1, s1.topicBase.value, now, r);
      InitCountAppend(configEvents, events);
      InitCountAppend(configEvents + events, [Sleep(cfg.refreshCurrentSeconds)]);
    } else {
      InitCountAppend(configEvents, [Sleep(cfg.refreshCurrentSeconds)]);
    }
  }

  /* ---------- Where publishes go ---------- */

  /** The category of the most recent read in `events`, if any. */
  function LastRead(events: seq<Event>): Option<Category> {
    if events == [] then None
    else if events[|events| - 1].Read? then Some(events[|events| - 1].category)
    else LastRead(events[..|events| - 1])
  }

  /** `topic` is `base + <category>/ + <key>` for a metric of category `c`. */
  ghost predicate PublishedUnder(base: string, c: Category, topic: string) {
    exists n :: n in MetricNames(c) && topic == base + Name(c) + "/" + Key(n)
  }

  /** Every publish in `events` goes under `base`, below the category of
      the read just before it, to the key of one of that category's metrics. */
  ghost predicate Addressed(base: string, events: seq<Event>) {
    forall i :: 0 <= i < |events| && events[i].Publish? ==>
      LastRead(events[..i]).Some? && PublishedUnder(base, LastRead(events[..i]).value, events[i].message.topic)
  }

  lemma {:induction false} LastReadSkips(a: seq<Event>, p: seq<Event>)
    requires forall k :: 0 <= k < |p| ==> !p[k].Read?
    ensures LastRead(a + p) == LastRead(a)
    decreases |p|
  {
    if p == [] {
      assert a + p == a;
    } else {
      assert (a + p)[..|a + p| - 1] == a + p[..|p| - 1];
      LastReadSkips(a, p[..|p| - 1]);
    }
  }

  lemma {:induction false} LastReadShift(a: seq<Event>, b: seq<Event>)
    requires LastRead(b).Some?
    ensures LastRead(a + b) == LastRead(b)
    decreases |b|
  {
    assert (a + b)[|a + b| - 1] == b[|b| - 1];
    if !b[|b| - 1].Read? {
      assert (a + b)[..|a + b| - 1] == a + b[..|b| - 1];
      LastReadShift(a, b[..|b| - 1]);
    }
  }

  lemma AddressedAppend(base: string, a: seq<Event>, b: seq<Event>)
    requires Addressed(base, a) && Addressed(base, b)
    ensures Addressed(base, a + b)
  {
    forall i | 0 <= i < |a + b| && (a + b)[i].Publish?
      ensures LastRead((a + b)[..i]).Some?
              && PublishedUnder(base, LastRead((a + b)[..i]).value, (a + b)[i].message.topic)
    {
      if i < |a| {
        assert (a + b)[..i] == a[..i];
      } else {
        assert (a + b)[..i] == a + b[..i - |a|];
        assert (a + b)[i] == b[i - |a|];
        LastReadShift(a, b[..i - |a|]);
      }
    }
  }

  /** A read of `c` and its publishes are addressed under `base`. */
  lemma FetchAddressed(cfg: Settings, c: Category, base: string, pvdata: Option<Bundle>)
    requires pvdata.Some? ==> NamedAs(pvdata.value, MetricNames(c))
    ensures Addressed(base, Fetch(cfg, c, base, pvdata))
  {
    var events := Fetch(cfg, c, base, pvdata);
    forall i | 0 <= i < |events| && events[i].Publish?
      ensures LastRead(events[..i]).Some?
              && PublishedUnder(base, LastRead(events[..i]).value, events[i].message.topic)
    {
      var b := pvdata.value;
      assert events[..i] == [Read(c)] + events[1..i];
      LastReadSkips([Read(c)], events[1..i]);
      assert b[i - 1].0 in MetricNames(c);
    }
  }

  /** Where an iteration publishes: once the topic base is known, every
      publish goes to `MQTT_TOPIC/<serial>/<category>/<key>`, the category
      being that of the read just before it and the key that of one of
      its metrics. The base is the serial's when this iteration read the
      configuration, and otherwise the one set before. */
  lemma StepAddressed(cfg: Settings, s: Schedule, now: int, r: Reads)
    requires s.Valid() && s.clock <= now && SerialIsText(r.config.data)
    ensures var (s', events) := Step(cfg, s, now, r);
            && (s'.topicBase.Some? ==> Addressed(s'.topicBase.value, events))
            && (ConfigRead(s, now, r) ==>
                  Addressed(TopicBase(cfg, r.config.data.value["10000"].value.s), events))
            && (!ConfigRead(s, now, r) && s.topicBase.Some? ==> Addressed(s.topicBase.value, events))
  {
    var (s', events) := Step(cfg, s, now, r);
    var (s1, configEvents) := ConfigPhase(cfg, s.(clock := now), now, r.config);
    var sleep := [Sleep(cfg.refreshCurrentSeconds)];
    StepTopicBase(cfg, s, now, r);
    if s'.topicBase.Some? {
      var base := s1.topicBase.value;
      assert Addressed(base, configEvents) by {
        if ConfigRead(s, now, r) {
          var serial := r.config.data.value["10000"].value.s;
          var tail := if cfg.hassEnable && !s.hassInitialized then [HassInitialize(serial)] else [];
          ParseName(Config);
          FetchAddressed(cfg, Config, base, ReadBundle(Config, r.config));
          AddressedAppend(base, Fetch(cfg, Config, base, ReadBundle(Config, r.config)), tail);
        }
      }
      MeasurementsAddressed(cfg, s1, base, now, r);
      var measured := Measurements(cfg, s1, base, now, r).1;
      AddressedAppend(base, configEvents, measured);
      AddressedAppend(base, configEvents + measured, sleep);
    }
  }

  lemma MeasurementsAddressed(cfg: Settings, s: Schedule, base: string, now: int, r: Reads)
    ensures Addressed(base, Measurements(cfg, s, base, now, r).1)
  {
    var currentEvents := Fetch(cfg, Current, base, ReadBundle(Current, r.current));
    var dayEvents := Periodic(cfg, Day, s.nextReadDay, cfg.refreshDayMinutes, base, now, r.day).1;
    var totalEvents := Periodic(cfg, Total, s.nextReadTotal, cfg.refreshTotalMinutes, base, now, r.total).1;
    ParseName(Current);
    ParseName(Day);
    ParseName(Total);
    FetchAddressed(cfg, Current, base, ReadBundle(Current, r.current));
    FetchAddressed(cfg, Day, base, ReadBundle(Day, r.day));
    FetchAddressed(cfg, Total, base, ReadBundle(Total, r.total));
    AddressedAppend(base, currentEvents, dayEvents);
    AddressedAppend(base, currentEvents + dayEvents, totalEvents);
  }

  lemma MeasurementsInitCount(cfg: Settings, s: Schedule, base: string, now: int, r: Reads)
    ensures InitCount(Measurements(cfg, s, base, now, r).1) == 0
  {
    var currentEvents := Fetch(cfg, Current, base, ReadBundle(Current, r.current));
    var dayEvents := Periodic(cfg, Day, s.nextReadDay, cfg.refreshDayMinutes, base, now, r.day).1;
    var totalEvents := Periodic(cfg, Total, s.nextReadTotal, cfg.refreshTotalMinutes, base, now, r.total).1;
    FetchInitCount(cfg, Current, base, ReadBundle(Current, r.current));
    PeriodicInitCount(cfg, Day, s.nextReadDay, cfg.refreshDayMinutes, base, now, r.day);
    PeriodicInitCount(cfg, Total, s.nextReadTotal, cfg.refreshTotalMinutes, base, now, r.total);
    InitCountAppend(currentEvents, dayEvents);
    InitCountAppend(currentEvents + dayEvents, totalEvents);
  }

  lemma ConfigPhaseDiscovery(cfg: Settings, s: Schedule, now: int, r: ReadOutcome)
    requires SerialIsText(r.data)
    ensures var (s', events) := ConfigPhase(cfg, s, now, r);
            var called := cfg.hassEnable && !s.hassInitialized && s.nextReadConfig <= now
                          && ReadBundle(Config, r).Some?;
            && s'.hassInitialized == (s.hassInitialized || called)
            && InitCount(events) == (if called then 1 else 0)
  {
    var pvConfig := ReadBundle(Config, r);
    if s.nextReadConfig <= now && pvConfig.Some? {
      var serial := r.data.value["10000"].value.s;
      var tail := if cfg.hassEnable && !s.hassInitialized then [HassInitialize(serial)] else [];
      FetchInitCount(cfg, Config, TopicBase(cfg, serial), pvConfig);
      InitCountAppend(Fetch(cfg, Config, TopicBase(cfg, serial), pvConfig), tail);
    }
  }

  lemma FetchInitCount(cfg: Settings, c: Category, base: string, pvdata: Option<Bundle>)
    ensures InitCount(Fetch(cfg, c, base, pvdata)) == 0
  {
    if pvdata.Some? {
      var ms := Publishes(pvdata.value, base + Name(c) + "/", cfg.formatFloat);
      InitCountPosted(ms);
      InitCountAppend([Read(c)], Posted(ms));
    }
  }

  lemma PeriodicInitCount(cfg: Settings, c: Category, next: int, cadenceMinutes: nat, base: string, now: int, r: ReadOutcome)
    ensures InitCount(Periodic(cfg, c, next, cadenceMinutes, base, now, r).1) == 0
  {
    FetchInitCount(cfg, c, base, ReadBundle(c, r));
  }

  /* ---------- The loop itself ---------- */

  /** One clock reading and the reads made in that iteration. */
  datatype Tick = Tick(now: int, outcomes: Reads)

  /** The ticks of a run are in time order and start no earlier than `from`. */
  predicate Chronological(from: int, ticks: seq<Tick>) {
    && (|ticks| > 0 ==> from <= ticks[0].now)
    && forall i :: 0 < i < |ticks| ==> ticks[i - 1].now <= ticks[i].now
  }

  /** Every configuration read of the run returns its serial as text. */
  predicate SerialsAreText(ticks: seq<Tick>) {
    forall i :: 0 <= i < |ticks| ==> SerialIsText(ticks[i].outcomes.config.data)
  }

  /** A run's first `n` ticks are themselves a run. */
  lemma PrefixIsRun(from: int, ticks: seq<Tick>, n: nat)
    requires Chronological(from, ticks) && SerialsAreText(ticks) && n <= |ticks|
    ensures Chronological(from, ticks[..n]) && SerialsAreText(ticks[..n])
  {
    var init := ticks[..n];
    forall i | 0 < i < |init|
      ensures init[i - 1].now <= init[i].now
    {
      assert init[i - 1] == ticks[i - 1] && init[i] == ticks[i];
    }
  }

  /** The loop over `ticks`: one `Step` per tick, in order, from `s`.
      Every iteration keeps the invariant and the clock ends at the last
      tick. */
  function Run(cfg: Settings, s: Schedule, ticks: seq<Tick>): (out: (Schedule, seq<Event>))
    requires s.Valid() && Chronological(s.clock, ticks) && SerialsAreText(ticks)
    ensures out.0.Valid()
    ensures ticks == [] ==> out == (s, [])
    ensures ticks != [] ==> out.0.clock == ticks[|ticks| - 1].now && |out.1| >= |ticks|
    decreases |ticks|
  {
    if ticks == [] then (s, [])
    else
      var init, last := ticks[..|ticks| - 1], ticks[|ticks| - 1];
      PrefixIsRun(s.clock, ticks, |ticks| - 1);
      var (s1, e1) := Run(cfg, s, init);
      assert s1.clock <= last.now by {
        if init != [] {
          assert init[|init| - 1] == ticks[|ticks| - 2];
        }
      }
      var (s2, e2) := Step(cfg, s1, last.now, last.outcomes);
      (s2, e1 + e2)
  }

  /** Over a whole run, `hass.initialize` is called once exactly when the
      run sets the flag, never once it was set, and until the serial is
      known nothing but configuration reads and sleeps happens. */
  lemma {:induction false} RunDiscoveryAndGating(cfg: Settings, s: Schedule, ticks: seq<Tick>)
    requires s.Valid() && Chronological(s.clock, ticks) && SerialsAreText(ticks)
    ensures var (s', events) := Run(cfg, s, ticks);
            && (s.hassInitialized ==> s'.hassInitialized)
            && InitCount(events) == (if s'.hassInitialized && !s.hassInitialized then 1 else 0)
            && (s.topicBase.Some? ==> s'.topicBase.Some?)
            && (s'.topicBase.None? ==> ConfigOnly(events))
    decreases |ticks|
  {
    if ticks != [] {
      var init, last := ticks[..|ticks| - 1], ticks[|ticks| - 1];
      PrefixIsRun(s.clock, ticks, |ticks| - 1);
      RunDiscoveryAndGating(cfg, s, init);
      var (s1, e1) := Run(cfg, s, init);
      var (s2, e2) := Step(cfg, s1, last.now, last.outcomes);
      assert Run(cfg, s, ticks) == (s2, e1 + e2);
      StepDiscovery(cfg, s1, last.now, last.outcomes);
      StepGating(cfg, s1, last.now, last.outcomes);
      InitCountAppend(e1, e2);
      if s2.topicBase.None? {
        assert ConfigOnly(e1) && ConfigOnly(e2);
        forall i | 0 <= i < |e1 + e2|
          ensures (e1 + e2)[i] == Read(Config) || (e1 + e2)[i].Sleep?
        {
          if i >= |e1| {
            assert (e1 + e2)[i] == e2[i - |e1|];
          }
        }
      }
    }
  }

  /** `main()` from the start of its loop: the loop's variables, and the
      log of everything it did to the outside world. */
  class MainLoop {
    const settings: Settings
    var clock: int
    var nextReadConfig: int
    var nextReadDay: int
    var nextReadTotal: int
    var topicBase: Option<string>
    var hassInitialized: bool
    var log: seq<Event>

    function State(): Schedule
      reads this
    {
      Schedule(clock, nextReadConfig, nextReadDay, nextReadTotal, topicBase, hassInitialized)
    }

    /** The configuration read stays due until it first succeeds; until
        then nothing but configuration reads and sleeps has happened;
        discovery has been sent once exactly when the flag is set. */
    predicate Valid()
      reads this
    {
      && State().Valid()
      && (topicBase.None? ==> ConfigOnly(log))
      && InitCount(log) == (if hassInitialized then 1 else 0)
    }

    /** Lines 124-127: every read is due at once, no topic base yet. */
    constructor (settings: Settings, startTime: int)
      ensures this.settings == settings && State() == Start(startTime) && log == []
      ensures Valid()
    {
      this.settings := settings;
      clock, nextReadConfig, nextReadDay, nextReadTotal := startTime, startTime, startTime, startTime;
      topicBase, hassInitialized := None, false;
      log := [];
    }

    /** Record the read of category `c` that returned `pvdata` and, if
        it succeeded, publish the bundle under `base + c + "/"`. */
    method Report(c: Category, base: string, pvdata: Option<Bundle>)
      modifies this`log
      ensures log == old(log) + Fetch(settings, c, base, pvdata)
    {
      log := log + [Read(c)];
      if pvdata.Some? {
        var sent := WriteToMqtt(pvdata.value, base + Name(c) + "/", settings.formatFloat);
        AppendAssoc(old(log), [Read(c)], Posted(sent));
        log := log + Posted(sent);
      }
    }

    /** Lines 143-150: read the configuration if it is due; on success
        set the topic base, publish under it, reschedule, and send the
        discovery information once. */
    method ReadConfig(now: int, r: ReadOutcome)
      requires SerialIsText(r.data)
      modifies this`log, this`topicBase, this`nextReadConfig, this`hassInitialized
      ensures State() == ConfigPhase(settings, old(State()), now, r).0
      ensures log == old(log) + ConfigPhase(settings, old(State()), now, r).1
    {
      ghost var out := ConfigPhase(settings, State(), now, r);
      if nextReadConfig <= now {
        var pvConfig := ReadBundle(Config, r);
        if pvConfig.None? {
          log := log + [Read(Config)];
        } else {
          assert "10000" in r.data.value && "10011" in r.data.value;
          var serial := r.data.value["10000"].value.s;
          topicBase := Some(TopicBase(settings, serial));
          ghost var fetched := Fetch(settings, Config, topicBase.value, pvConfig);
          ghost var tail := if settings.hassEnable && !hassInitialized then [HassInitialize(serial)] else [];
          assert out.1 == fetched + tail;
          Report(Config, topicBase.value, pvConfig);
          nextReadConfig := r.finishedAt + settings.refreshConfigHours * 3600;
          if settings.hassEnable && !hassInitialized {
            AppendAssoc(old(log), fetched, [HassInitialize(serial)]);
            log := log + [HassInitialize(serial)];
            hassInitialized := true;
          } else {
            assert log == old(log) + (fetched + []);
          }
        }
      }
    }

    /** Lines 162-173: read a periodic category if it is due and, after a
        successful read, return when it is next due. */
    method Poll(c: Category, next: int, cadenceMinutes: nat, base: string, now: int, r: ReadOutcome)
      returns (newNext: int)
      modifies this`log
      ensures newNext == Periodic(settings, c, next, cadenceMinutes, base, now, r).0
      ensures log == old(log) + Periodic(settings, c, next, cadenceMinutes, base, now, r).1
    {
      newNext := next;
      if next <= now {
        var pvdata := ReadBundle(c, r);
        Report(c, base, pvdata);
        if pvdata.Some? {
          newNext := r.finishedAt + cadenceMinutes * 60;
        }
      }
    }

    /** Lines 156-173: the reads that need the topic base `base`. */
    method ReadMeasurements(base: string, now: int, r: Reads)
      modifies this`log, this`nextReadDay, this`nextReadTotal
      ensures State() == Measurements(settings, old(State()), base, now, r).0
      ensures log == old(log) + Measurements(settings, old(State()), base, now, r).1
    {
      Report(Current, base, ReadBundle(Current, r.current));
      ghost var events := Fetch(settings, Current, base, ReadBundle(Current, r.current));
      ghost var dayEvents := Periodic(settings, Day, nextReadDay, settings.refreshDayMinutes, base, now, r.day).1;
      nextReadDay := Poll(Day, nextReadDay, settings.refreshDayMinutes, base, now, r.day);
      AppendAssoc(old(log), events, dayEvents);
      events := events + dayEvents;
      ghost var totalEvents := Periodic(settings, Total, nextReadTotal, settings.refreshTotalMinutes, base, now, r.total).1;
      nextReadTotal := Poll(Total, nextReadTotal, settings.refreshTotalMinutes, base, now, r.total);
      AppendAssoc(old(log), events, totalEvents);
    }

    /** Lines 140-176: one iteration of the loop, started at clock `now`. */
    method Iterate(now: int, r: Reads)
      requires Valid()
      requires clock <= now
      requires SerialIsText(r.config.data)
      modifies this
      ensures State() == Step(settings, old(State()), now, r).0
      ensures log == old(log) + Step(settings, old(State()), now, r).1
      ensures Valid()
    {
      ghost var s0, log0 := State(), log;
      clock := now;
      ReadConfig(now, r.config);
      ghost var events := ConfigPhase(settings, s0.(clock := now), now, r.config).1;
      if topicBase.None? {
        log := log + [Sleep(settings.refreshCurrentSeconds)];
        AppendAssoc(log0, events, [Sleep(settings.refreshCurrentSeconds)]);
        IterationKeepsValid(s0, log0, now, r);
        return;
      }
      ghost var measured := Measurements(settings, State(), topicBase.value, now, r).1;
      ReadMeasurements(topicBase.value, now, r);
      AppendAssoc(log0, events, measured);
      events := events + measured;
      log := log + [Sleep(settings.refreshCurrentSeconds)];
      AppendAssoc(log0, events, [Sleep(settings.refreshCurrentSeconds)]);
      IterationKeepsValid(s0, log0, now, r);
    }

    /** The invariant carries over an iteration whose new state and log
        are those `Step` describes. */
    lemma IterationKeepsValid(s0: Schedule, log0: seq<Event>, now: int, r: Reads)
      requires s0.Valid() && s0.clock <= now && SerialIsText(r.config.data)
      requires s0.topicBase.None? ==> ConfigOnly(log0)
      requires InitCount(log0) == (if s0.hassInitialized then 1 else 0)
      requires State() == Step(settings, s0, now, r).0
      requires log == log0 + Step(settings, s0, now, r).1
      ensures Valid()
    {
      var events := Step(settings, s0, now, r).1;
      StepGating(settings, s0, now, r);
      StepDiscovery(settings, s0, now, r);
      InitCountAppend(log0, events);
      if topicBase.None? {
        assert ConfigOnly(events);
        assert ConfigOnly(log);
      }
    }

    /** `while run_status:` for as many iterations as there are ticks:
        discovery is sent at most once in the whole run, and nothing but
        configuration reads and sleeps happen until the serial number is
        known. */
    method Serve(ticks: seq<Tick>)
      requires Valid() && Chronological(clock, ticks) && SerialsAreText(ticks)
      modifies this
      ensures State() == Run(settings, old(State()), ticks).0
      ensures log == old(log) + Run(settings, old(State()), ticks).1
      ensures Valid()
      ensures InitCount(log) <= 1
      ensures topicBase.None? ==> ConfigOnly(log)
      ensures |ticks| > 0 ==> clock == ticks[|ticks| - 1].now
    {
      ghost var s0, log0 := State(), log;
      for k := 0 to |ticks|
        invariant Valid() && Chronological(s0.clock, ticks)
        invariant k > 0 ==> clock == ticks[k - 1].now
        invariant k == 0 ==> clock == s0.clock
        invariant Chronological(s0.clock, ticks[..k]) && SerialsAreText(ticks[..k])
        invariant State() == Run(settings, s0, ticks[..k]).0
        invariant log == log0 + Run(settings, s0, ticks[..k]).1
      {
        PrefixIsRun(s0.clock, ticks, k + 1);
        ghost var events := Run(settings, s0, ticks[..k]).1;
        Iterate(ticks[k].now, ticks[k].outcomes);
        assert ticks[..k + 1][..k] == ticks[..k];
        ghost var step := Step(settings, Run(settings, s0, ticks[..k]).0, ticks[k].now, ticks[k].outcomes).1;
        AppendAssoc(log0, events, step);
      }
      assert ticks[..|ticks|] == ticks;
    }
  }
}
