# M-TEC Energybutler Modbus → MQTT bridge, modelled in Dafny

The bridge polls an M-TEC Energybutler inverter over Modbus and publishes
what it reads on MQTT. This project models its core, `mtec_modbus_mqtt.py`,
and proves properties of that model. The modules follow the program:

- `Catalog` (catalog.dfy): `get_register_list`. It maps the four read
  categories `config`, `current`, `day` and `total` to the register ids
  requested for them.
- `Values` (values.dfy): the register values the transport decodes
  (Python `int`, `float`, `bool`, `str`). It also models the part of
  Python arithmetic the metric derivation uses: `+`, `-`, true division,
  integer scaling and `> 0`. Each operator gives `None` where Python raises.
- `Readings` (readings.dfy): the transform part of `read_MTEC_data`. It
  turns the raw register map of one category read into the ordered metric
  dict, including the derived consumption, autarky rate and
  own-consumption rate. The transform is all-or-nothing: any exception
  inside the `try` block gives `None`.
- `Mqtt` (mqtt.dfy): `write_to_MQTT`. It makes one publish per metric, in
  insertion order, and formats payloads.
- `Bridge` (bridge.dfy): the main loop. `Step` is the pure specification
  of one iteration. The class `Bridge.MainLoop` holds the loop variables
  `next_read_config`, `next_read_day`, `next_read_total`, `topic_base` and
  the discovery flag as mutable fields. Its `Iterate` method runs one
  iteration imperatively and is proved equal to `Step`. `Serve` runs the
  loop over a finite sequence of clock ticks.

Side effects are recorded as events in an append-only log: the register
reads, the MQTT publishes, the Home Assistant discovery call and the sleep.
The inputs from outside are parameters of each iteration: the clock, the
registers a read returned, and the formatted time stamp.

Three facts about the code that the model keeps:

- The time-stamp metric is called `api_date`.
- `current` also passes the inverter's own clock (register 10100) through
  as `inverter_date`.
- A category name outside the four matches no branch of
  `read_MTEC_data`, so the result holds only `api_date`. It is not `None`.

## Model

| member | source | states |
|---|---|---|
| Catalog.Parse | mtec_modbus_mqtt.py:30-38 | a name is recognised exactly when it is one of "config", "current", "day", "total", and then it names that category |
| Catalog.RegisterList | mtec_modbus_mqtt.py:29-41 | None exactly for an unknown category; otherwise a non-empty list of distinct register ids of size 2 (config), 8 (current) or 5 (day, total) |
| Catalog.RegisterListOf | mtec_modbus_mqtt.py:29-41 | called with a category's name, `get_register_list` returns exactly that category's catalogued registers, the list the transform lemmas are stated over |
| Values.Add | mtec_modbus_mqtt.py:74 | Python `+`: numbers add, giving a float when either operand is a float and an int otherwise (never a bool); two strings concatenate; a string with a number raises |
| Values.Sub | mtec_modbus_mqtt.py:65 | Python `-`: defined exactly on two numbers, giving their difference, a float when either operand is a float and an int otherwise (never a bool) |
| Values.Div | mtec_modbus_mqtt.py:75 | Python `/`: defined exactly on two numbers with a non-zero divisor; the result is always a float, the quotient |
| Values.Times | mtec_modbus_mqtt.py:75 | `100*x` scales the value, and is a float when `x` is a float and an int otherwise (never a bool) |
| Values.Positive | mtec_modbus_mqtt.py:75 | `x > 0` raises on a string and otherwise compares the numeric value with 0 |
| Readings.Rate | mtec_modbus_mqtt.py:75-76 | `100*(1 - part/whole)` succeeds exactly on numbers with a non-zero whole, and is then that float |
| Readings.ConfigItems | mtec_modbus_mqtt.py:51-55 | the config dict has the keys api_date, serial_no, firmware_version, each once, in that order |
| Readings.CurrentItems | mtec_modbus_mqtt.py:57-66 | the current dict has its ten keys, each once, in insertion order |
| Readings.EnergyItems | mtec_modbus_mqtt.py:68-86 | the day/total dict has its nine keys, each once, in insertion order |
| Readings.ConfigBundle | mtec_modbus_mqtt.py:53-55 | the config transform succeeds exactly when data came back holding both catalogued registers, and then holds api_date, serial_no and firmware_version with both registers unchanged |
| Readings.CurrentBundle | mtec_modbus_mqtt.py:57-66 | the current transform succeeds exactly when all eight catalogued registers came back and registers 11016 and 11000 are numbers; its names are the current metrics, each once, in order |
| Readings.EnergyBundle | mtec_modbus_mqtt.py:68-86 | the day/total transform succeeds exactly when all five counters came back as numbers; its names are the energy metrics, each once, in order |
| Readings.Transform | mtec_modbus_mqtt.py:49-90 | a successful read has the category's metric names, each once, in insertion order, with `api_date` first holding the time stamp |
| Readings.ReadData | mtec_modbus_mqtt.py:44-90 | an unknown category yields just the time stamp; a known one yields that category's transform |
| Readings.CatalogMatchesTransform | mtec_modbus_mqtt.py:29-86 | the transform indexes exactly the registers the catalog requests, and arithmetic and pass-through only use those |
| Readings.EnergyConsumptionEntry | mtec_modbus_mqtt.py:74-84 | the consumption entry is PV + purchase + discharge − feed − charge, and a float when one counter is a float, an int otherwise |
| Readings.EnergyAutarkyEntry | mtec_modbus_mqtt.py:75-85 | the autarky entry equals its reference definition: 100*(1 − purchase/consumption), or the int 0 when consumption ≤ 0 |
| Readings.EnergyOwnRateEntry | mtec_modbus_mqtt.py:76-86 | the own-consumption entry equals its reference definition: 100*(1 − feed/PV), or the int 0 when PV ≤ 0 |
| Readings.TransformSucceeds | mtec_modbus_mqtt.py:50-89 | all or nothing: a read succeeds exactly when every catalogued register is present and every register used in arithmetic is a number; no division by zero can make it fail |
| Readings.MissingRegisterFails | mtec_modbus_mqtt.py:54-89 | removing any requested register makes the read fail |
| Readings.StringOperandFails | mtec_modbus_mqtt.py:65-89 | a string in a register used in arithmetic makes the read fail |
| Readings.TransformPassThrough | mtec_modbus_mqtt.py:54-83 | every pass-through metric is stored as its register, unchanged, in every category |
| Readings.ConfigPassThrough | mtec_modbus_mqtt.py:54-55 | serial_no and firmware_version are registers 10000 and 10011 unchanged |
| Readings.CurrentPassThrough | mtec_modbus_mqtt.py:58-66 | the eight current metrics other than consumption are their registers unchanged |
| Readings.EnergyPassThroughHolds | mtec_modbus_mqtt.py:69-83 | PV, grid_feed, grid_purchase, battery_charge and battery_discharge are their counters unchanged |
| Readings.CurrentConsumption | mtec_modbus_mqtt.py:65 | current consumption is inverter power (11016) minus grid power (11000), a float when one of them is a float and an int otherwise |
| Readings.EnergyDerivations | mtec_modbus_mqtt.py:74-86 | day/total consumption, autarky rate and own-consumption rate, looked up by key, agree with their reference definitions, including the 0 fallback when the divisor is not positive |
| Readings.RatesArePercentages | mtec_modbus_mqtt.py:75-86 | with purchase between 0 and consumption and feed-in between 0 and PV, both rates lie between 0 and 100 |
| Readings.CurrentExample | mtec_modbus_mqtt.py:65 | inverter 1200 and grid 500 give consumption 700 |
| Readings.DayExample | mtec_modbus_mqtt.py:74-76 | PV 10, feed 2, purchase 1, charge 3, discharge 1 give consumption 7, autarky 600/7 and own consumption 80.0 |
| Mqtt.ValueOf | mtec_modbus_mqtt.py:96-103 | a register dict contributes its "value", a plain metric itself |
| Mqtt.Payload | mtec_modbus_mqtt.py:97-109 | the client only ever gets ints and strings: floats go through the configured format, booleans become "1"/"0", the rest is forwarded |
| Mqtt.MessageFor | mtec_modbus_mqtt.py:95-110 | one metric is published under the base topic followed by its key, with an int or string payload that is the metric's value itself when that already is an int or a string |
| Mqtt.Publishes | mtec_modbus_mqtt.py:93-110 | one publish per metric, in insertion order, under base topic + key |
| Mqtt.WriteToMqtt | mtec_modbus_mqtt.py:93-110 | the loop publishes exactly the messages `Publishes` describes, in order |
| Mqtt.KeyInjective | mtec_modbus_mqtt.py:95 | distinct metrics have distinct topic suffixes |
| Mqtt.TopicsDistinct | mtec_modbus_mqtt.py:94-95 | a bundle with distinct metric names is published under pairwise distinct topics |
| Bridge.Start | mtec_modbus_mqtt.py:124-127 | at start the clock is the start time, config, day and total are all due, there is no topic base yet, and discovery has not run |
| Bridge.TopicBase | mtec_modbus_mqtt.py:146 | the topic base is MQTT_TOPIC, a slash, the serial and a trailing slash, so the serial can be read back from it |
| Bridge.Fetch | mtec_modbus_mqtt.py:157-159 | a category read is recorded first; a failed read is only that event; a successful one is followed, in order, by the publish of each metric under base + category + "/" + its key, with its formatted payload |
| Bridge.FetchAddressed | mtec_modbus_mqtt.py:157-172 | every publish of a category read goes to base + category + "/" + the key of one of that category's metrics, the category being the read just before it |
| Bridge.ConfigPhase | mtec_modbus_mqtt.py:143-150 | a config read not yet due changes nothing; a due one is logged first, and a failed one changes nothing else; the topic base is known afterwards exactly when it was before or the read succeeded; a successful one sets it to MQTT_TOPIC/serial/ and is the read, its publishes under that base + "config/", then the discovery call when due; day, total and the clock are untouched |
| Bridge.Periodic | mtec_modbus_mqtt.py:162-173 | a day/total read not yet due changes nothing; a due one is logged first; a failed one keeps the schedule; a successful one reschedules to finish time + cadence minutes; a due read logs exactly what `Fetch` describes, the read followed by its publishes under base + category + "/" |
| Bridge.Measurements | mtec_modbus_mqtt.py:156-173 | current is read on every iteration that has a topic base, first; only the day and total schedules can change |
| Bridge.Step | mtec_modbus_mqtt.py:139-176 | an iteration keeps the config read due until it first succeeds, moves the clock to the iteration's start, and always ends with the sleep |
| Bridge.StepGating | mtec_modbus_mqtt.py:143-154 | the topic base is known after an iteration exactly when it was known before or the config read succeeded; while it is unknown, the iteration only reads config and sleeps, with no other read and no publish |
| Bridge.StepTopicBase | mtec_modbus_mqtt.py:145-148 | a successful config read sets the topic base to MQTT_TOPIC/serial/ and schedules the next config read REFRESH_CONFIG_H hours after it finished; otherwise both stay |
| Bridge.StepCadence | mtec_modbus_mqtt.py:162-173 | day and total move to finish time + REFRESH_DAY_M / REFRESH_TOTAL_M minutes only after a due and successful read; otherwise they do not change |
| Bridge.StepMonotone | mtec_modbus_mqtt.py:148-173 | with reads that finish no earlier than they start, no read is scheduled earlier than before |
| Bridge.StepAddressed | mtec_modbus_mqtt.py:143-173 | once the topic base is known, every publish of an iteration goes to MQTT_TOPIC/serial/category/key, for the category read just before it and a metric of that category; the base is the serial just read when config succeeded, the earlier one otherwise |
| Bridge.StepDiscovery | mtec_modbus_mqtt.py:149-150 | hass.initialize is called in an iteration exactly when HASS is enabled, not yet initialised and the config read succeeds, and the flag is set exactly then |
| Bridge.Run | mtec_modbus_mqtt.py:139-176 | the loop over a run of ticks keeps the invariant, ends with the clock at the last tick, and logs at least one event per iteration |
| Bridge.RunDiscoveryAndGating | mtec_modbus_mqtt.py:139-176 | over any run, hass.initialize is called once exactly when the run sets the flag and never once it was set, the topic base is never lost, and until it is known nothing but config reads and sleeps happens |
| Bridge.ConfigPhaseDiscovery | mtec_modbus_mqtt.py:143-150 | the config phase calls hass.initialize once exactly when it sets the flag |
| Bridge.MainLoop.constructor | mtec_modbus_mqtt.py:124-127 | the loop starts in the start state with an empty log, satisfying the invariant |
| Bridge.MainLoop.Report | mtec_modbus_mqtt.py:157-159 | logs the read, then, on success, the publishes of `write_to_MQTT` under base + category + "/" |
| Bridge.MainLoop.ReadConfig | mtec_modbus_mqtt.py:143-150 | updates the topic base, the config schedule, the discovery flag and the log as the config phase of `Step` describes |
| Bridge.MainLoop.Poll | mtec_modbus_mqtt.py:162-173 | a due day/total read is logged and published, and reschedules only on success |
| Bridge.MainLoop.ReadMeasurements | mtec_modbus_mqtt.py:156-173 | current every iteration, day and total when due, as `Step` describes |
| Bridge.MainLoop.Iterate | mtec_modbus_mqtt.py:139-176 | one iteration changes the loop variables and appends to the log exactly as `Step`, and keeps the invariant: gating, and discovery sent once exactly when the flag is set |
| Bridge.MainLoop.Serve | mtec_modbus_mqtt.py:139-176 | the loop changes the loop variables and appends to the log exactly as `Run` describes; discovery is sent at most once, and until the serial is known nothing but config reads and sleeps happens |

## Left out

- The Modbus transport (`MTECmodbusAPI`), the MQTT client (`mqtt`) and the Home Assistant integration (`hass_int`) are not part of this model. A read's result is a parameter. Publishes and the discovery call are log events.
- `datetime.now()`, `strftime` and `time.sleep` are not modelled. The iteration's start time, each read's finish time and the formatted time stamp are parameters. Times are whole seconds, and the sleep is an event.
- The float format string (`MQTT_FLOAT_FORMAT`) is a function parameter. Floats are exact reals: no rounding, no NaN, no infinity.
- The signal handler, `run_status` and the shutdown sequence (lines 178-183) are left out. `Serve` runs for a given finite number of iterations instead.
- Logging, loading the configuration and the DEBUG level switch are left out, as are `main`'s connection set-up (lines 113-137) apart from the loop variables.
- A register dict without a "value" entry is not modelled. Every register carries a value, so the KeyError that such a dict would raise in the arithmetic is not represented.
- Bridge.MainLoop.Iterate: requires that a config read returning both registers 10000 and 10011 holds the serial number as a string. The source raises an uncaught TypeError in the topic concatenation for such a read, which ends the program. A read missing either register fails quietly whatever the serial's type, and is modelled.
- Bridge.MainLoop.Iterate: requires the clock not to go backwards between iterations. That is what keeps the unfinished config read due; a wall clock stepped backwards is not modelled.
- Bridge.Step: has the same two preconditions as `Iterate`, and so do `Bridge.Run` and `Bridge.MainLoop.Serve` for every tick of the run.
- The register read `api.read_modbus_data` (line 48) runs before the `try` block, so an exception it raised would end `main`. The model assumes the transport reports a failed read by returning no data (`ReadOutcome.data` is `None`), never by raising.
- Bridge.StepDiscovery: `hass.is_initialized` is taken to become true when `hass.initialize` is called. That class is not part of this model.
