/**
 * `write_to_MQTT`: every metric of a bundle becomes one MQTT publish
 * under `base_topic + key`, in the bundle's insertion order. The
 * payload is the register's "value" for a pass-through metric and the
 * metric itself otherwise; floats are rendered with the configured
 * format string, booleans as "0"/"1", and anything else is handed to
 * the MQTT client unchanged.
 */
module Mqtt {
  import opened Values
  import opened Readings

  /** One `mqtt_publish(topic, payload)` call. */
  datatype Message = Message(topic: string, payload: Scalar)

  /** What a payload is taken from: `data["value"]` for a register dict,
      the metric itself for a plain value. */
  function ValueOf(m: Metric): (v: Scalar)
    ensures m.Reading? ==> v == m.register.value
    ensures m.Derived? ==> v == m.scalar
  {
    match m
    case Reading(register) => register.value
    case Derived(scalar) => scalar
  }

  /** The payload for one value. `formatFloat` stands for
      `cfg['MQTT_FLOAT_FORMAT'].format`. Python's `"{:d}"` renders
      True and False as "1" and "0". */
  function Payload(v: Scalar, formatFloat: real -> string): (p: Scalar)
    ensures p.Int? || p.Str?
    ensures v.Float? ==> p == Str(formatFloat(v.x))
    ensures v.Bool? ==> p == Str(if v.b then "1" else "0")
    ensures v.Int? || v.Str? ==> p == v
  {
    match v
    case Float(x) => Str(formatFloat(x))
    case Bool(b) => Str(if b then "1" else "0")
    case _ => v
  }

  /** The publish for one bundle item: under the base topic followed by
      the item's key, with an int or string payload that is the item's
      value itself when that already is an int or a string. */
  function MessageFor(item: (MetricName, Metric), baseTopic: string, formatFloat: real -> string): (m: Message)
    ensures |m.topic| >= |baseTopic| && m.topic[..|baseTopic|] == baseTopic
            && m.topic[|baseTopic|..] == Key(item.0)
    ensures m.payload.Int? || m.payload.Str?
    ensures ValueOf(item.1).Int? || ValueOf(item.1).Str? ==> m.payload == ValueOf(item.1)
  {
    Message(baseTopic + Key(item.0), Payload(ValueOf(item.1), formatFloat))
  }

  /** The publishes of `write_to_MQTT(pvdata, baseTopic)`, in order. */
  function Publishes(pvdata: Bundle, baseTopic: string, formatFloat: real -> string): (ms: seq<Message>)
    ensures |ms| == |pvdata|
    ensures forall i :: 0 <= i < |pvdata| ==> ms[i] == MessageFor(pvdata[i], baseTopic, formatFloat)
  {
    seq(|pvdata|, i requires 0 <= i < |pvdata| => MessageFor(pvdata[i], baseTopic, formatFloat))
  }

  /** The loop of `write_to_MQTT`: one publish per item, in order. */
  method WriteToMqtt(pvdata: Bundle, baseTopic: string, formatFloat: real -> string) returns (sent: seq<Message>)
    ensures sent == Publishes(pvdata, baseTopic, formatFloat)
  {
    sent := [];
    for k := 0 to |pvdata|
      invariant |sent| == k
      invariant forall i :: 0 <= i < k ==> sent[i] == MessageFor(pvdata[i], baseTopic, formatFloat)
    {
      var (param, data) := pvdata[k];
      var topic := baseTopic + Key(param);
      var payload: Scalar;
      var value := ValueOf(data);
      if value.Float? {
        payload := Str(formatFloat(value.x));
      } else if value.Bool? {
        payload := Str(if value.b then "1" else "0");
      } else {
        payload := value;
      }
      sent := sent + [Message(topic, payload)];
    }
  }

  /* ---------- Properties of the publishes ---------- */

  /** Distinct metrics have distinct keys. */
  lemma KeyInjective(m: MetricName, n: MetricName)
    requires m != n
    ensures Key(m) != Key(n)
  {
  }

  /** Every topic is the base topic followed by the metric's key, and a
      bundle with distinct metric names gets distinct topics. */
  lemma TopicsDistinct(b: Bundle, baseTopic: string, formatFloat: real -> string)
    requires UniqueNames(b)
    ensures var ms := Publishes(b, baseTopic, formatFloat);
            forall i, j :: 0 <= i < j < |ms| ==> ms[i].topic != ms[j].topic
  {
    var ms := Publishes(b, baseTopic, formatFloat);
    forall i, j | 0 <= i < j < |ms|
      ensures ms[i].topic != ms[j].topic
    {
      KeyInjective(b[i].0, b[j].0);
      assert ms[i].topic[|baseTopic|..] == Key(b[i].0);
      assert ms[j].topic[|baseTopic|..] == Key(b[j].0);
    }
  }
}
