/**
 * The sensor transform of backend/server.js (`processSensorData`): a raw
 * ultrasonic distance in centimetres becomes a reading with a fill capacity in
 * percent, a discrete status and the online flag.
 */
module Transform {
  import opened Wrappers

  /** Distance read when the bin is empty, in cm. */
  const BinDepth: real := 30.0
  /** Distance read when the bin is full, in cm. */
  const FullThreshold: real := 5.0

  /** Fill status; `Unknown` is only the placeholder the server and the page start with. */
  datatype Status = Available | HalfFull | NearlyFull | Full | Unknown

  function StatusName(s: Status): string
  {
    match s
    case Available => "AVAILABLE"
    case HalfFull => "HALF_FULL"
    case NearlyFull => "NEARLY_FULL"
    case Full => "FULL"
    case Unknown => "UNKNOWN"
  }

  lemma StatusNameInjective(a: Status, b: Status)
    ensures StatusName(a) == StatusName(b) <==> a == b
  {
  }

  /** A JSON field as JavaScript sees it: missing, `null`, or a number. */
  datatype Field = Absent | Null | Num(x: real)

  /** The value `data.distance || data.value || 0` picks: a field counts when it is a non-zero number. */
  predicate Truthy(f: Field) { f.Num? && f.x != 0.0 }

  /** The decoded sensor message: the `distance` field and its legacy alias `value`. */
  datatype Payload = Payload(distance: Field, value: Field)

  /**
   * The record the server caches, pushes as `sensorData` and the page shows.
   * `distance` and `timestamp` are `None` for JavaScript's `null`.
   */
  datatype Reading = Reading(distance: Option<real>, capacity: int, status: Status,
                             timestamp: Option<int>, robotOnline: bool)

  /** JavaScript's `Math.round`: the nearest integer, halves rounded up. */
  function Round(x: real): (r: int)
    ensures r as real - 0.5 <= x < r as real + 0.5
  {
    (x + 0.5).Floor
  }

  lemma RoundMonotone(x: real, y: real)
    requires x <= y
    ensures Round(x) <= Round(y)
  {
  }

  /** `data.distance || data.value || 0` */
  function RawDistance(p: Payload): (d: real)
    ensures Truthy(p.distance) ==> d == p.distance.x
    ensures !Truthy(p.distance) && Truthy(p.value) ==> d == p.value.x
    ensures !Truthy(p.distance) && !Truthy(p.value) ==> d == 0.0
  {
    if Truthy(p.distance) then p.distance.x
    else if Truthy(p.value) then p.value.x
    else 0.0
  }

  /**
   * The piecewise-linear capacity before the final clamp: 100 up to 5 cm, 0 from
   * 30 cm, and in between the integer nearest to 4 % per centimetre below 30 cm.
   */
  function LinearCapacity(d: real): (c: int)
    ensures d <= FullThreshold ==> c == 100
    ensures d >= BinDepth ==> c == 0
    ensures FullThreshold < d < BinDepth ==> c as real - 0.5 <= (30.0 - d) * 4.0 < c as real + 0.5
  {
    if d <= FullThreshold then 100
    else if d >= BinDepth then 0
    else
      assert ((BinDepth - d) / (BinDepth - FullThreshold)) * 100.0 == (30.0 - d) * 4.0;
      Round(((BinDepth - d) / (BinDepth - FullThreshold)) * 100.0)
  }

  /** `Math.max(0, Math.min(100, capacity))` */
  function Clamp(c: int): (r: int)
    ensures 0 <= r <= 100
    ensures 0 <= c <= 100 ==> r == c
    ensures c > 100 ==> r == 100
    ensures c < 0 ==> r == 0
  {
    if c > 100 then 100 else if c < 0 then 0 else c
  }

  /** The status thresholds on the (unclamped) capacity. */
  function StatusOf(capacity: int): (s: Status)
    ensures s == Full <==> capacity >= 100
    ensures s == NearlyFull <==> 80 <= capacity < 100
    ensures s == HalfFull <==> 50 <= capacity < 80
    ensures s == Available <==> capacity < 50
  {
    if capacity >= 100 then Full
    else if capacity >= 80 then NearlyFull
    else if capacity >= 50 then HalfFull
    else Available
  }

  /** `Math.round(distance * 10) / 10` */
  function RoundTenth(d: real): (r: real)
    ensures d - 0.05 < r <= d + 0.05
    ensures (r * 10.0).Floor as real == r * 10.0
  {
    var k := Round(d * 10.0);
    var r := k as real / 10.0;
    assert r * 10.0 == k as real;
    r
  }

  /** `processSensorData(data)` with `new Date()` given as `now`. */
  function ProcessSensorData(p: Payload, now: int): (r: Reading)
    ensures 0 <= r.capacity <= 100
    ensures r.status != Unknown && r.status == StatusOf(r.capacity)
    ensures r.capacity == LinearCapacity(RawDistance(p))
    ensures r.distance == Some(RoundTenth(RawDistance(p))) && r.timestamp == Some(now) && r.robotOnline
  {
    var d := RawDistance(p);
    var capacity := LinearCapacity(d);
    ClampIsIdentity(d);
    Reading(Some(RoundTenth(d)), Clamp(capacity), StatusOf(capacity), Some(now), true)
  }

  /** The linear branch never leaves [0, 100], so the clamp changes nothing. */
  lemma ClampIsIdentity(d: real)
    ensures 0 <= LinearCapacity(d) <= 100
  {
    if FullThreshold < d < BinDepth {
      var x := ((BinDepth - d) / (BinDepth - FullThreshold)) * 100.0;
      assert x == (30.0 - d) * 4.0;
      assert 0.0 < x < 100.0;
    }
  }

  /** A farther distance never gives a fuller bin. */
  lemma CapacityMonotone(d1: real, d2: real)
    requires d1 <= d2
    ensures LinearCapacity(d2) <= LinearCapacity(d1)
  {
    ClampIsIdentity(d1);
    ClampIsIdentity(d2);
    if FullThreshold < d1 && d2 < BinDepth {
      assert ((BinDepth - d2) / (BinDepth - FullThreshold)) * 100.0 == (30.0 - d2) * 4.0;
      assert ((BinDepth - d1) / (BinDepth - FullThreshold)) * 100.0 == (30.0 - d1) * 4.0;
      RoundMonotone((30.0 - d2) * 4.0, (30.0 - d1) * 4.0);
    }
  }

  /** The same monotonicity, read off the processed reading for two payloads. */
  lemma ProcessedCapacityMonotone(p1: Payload, p2: Payload, t1: int, t2: int)
    requires RawDistance(p1) <= RawDistance(p2)
    ensures ProcessSensorData(p2, t2).capacity <= ProcessSensorData(p1, t1).capacity
  {
    CapacityMonotone(RawDistance(p1), RawDistance(p2));
    ClampIsIdentity(RawDistance(p1));
    ClampIsIdentity(RawDistance(p2));
  }

  /** Equal distances give equal capacity and status, whenever they arrive. */
  lemma ProcessedDeterministic(p1: Payload, p2: Payload, t1: int, t2: int)
    requires RawDistance(p1) == RawDistance(p2)
    ensures var r1, r2 := ProcessSensorData(p1, t1), ProcessSensorData(p2, t2);
            r1.distance == r2.distance && r1.capacity == r2.capacity && r1.status == r2.status
  {
  }

  /**
   * The status as a function of the raw distance: the half-up rounding moves
   * each threshold 0.125 cm past the point where the line crosses it.
   */
  lemma StatusBands(p: Payload, now: int)
    ensures var d, s := RawDistance(p), ProcessSensorData(p, now).status;
            && (s == Full <==> d <= 5.125)
            && (s == NearlyFull <==> 5.125 < d <= 10.125)
            && (s == HalfFull <==> 10.125 < d <= 17.625)
            && (s == Available <==> 17.625 < d)
  {
    var d := RawDistance(p);
    ClampIsIdentity(d);
    if FullThreshold < d < BinDepth {
      var x := ((BinDepth - d) / (BinDepth - FullThreshold)) * 100.0;
      assert x == (30.0 - d) * 4.0;
    }
  }

  /** Capacity is exactly 0 beyond 29.875 cm, and exactly 100 up to 5.125 cm. */
  lemma CapacityExtremes(d: real)
    ensures LinearCapacity(d) == 100 <==> d <= 5.125
    ensures LinearCapacity(d) == 0 <==> d > 29.875
  {
    if FullThreshold < d < BinDepth {
      var x := ((BinDepth - d) / (BinDepth - FullThreshold)) * 100.0;
      assert x == (30.0 - d) * 4.0;
    }
  }

  /** The worked examples: 2 cm is full, 30 cm is empty, 17.5 cm is half full. */
  lemma Examples(now: int)
    ensures var r := ProcessSensorData(Payload(Num(2.0), Absent), now);
            r.capacity == 100 && r.status == Full && r.distance == Some(2.0)
    ensures var r := ProcessSensorData(Payload(Num(30.0), Absent), now);
            r.capacity == 0 && r.status == Available && r.distance == Some(30.0)
    ensures var r := ProcessSensorData(Payload(Num(17.5), Absent), now);
            r.capacity == 50 && r.status == HalfFull && r.distance == Some(17.5)
  {
    assert Round(17.5 * 10.0) == 175;
    assert Round(((BinDepth - 17.5) / (BinDepth - FullThreshold)) * 100.0) == 50;
    assert Round(2.0 * 10.0) == 20;
    assert Round(30.0 * 10.0) == 300;
  }

  /**
   * A missing, `null` or zero `distance` falls back to `value`, and when that is
   * missing too the reading is taken at 0 cm, that is, a full bin.
   */
  lemma MissingDistanceIsFull(p: Payload, now: int)
    requires !Truthy(p.distance) && !Truthy(p.value)
    ensures ProcessSensorData(p, now) == Reading(Some(0.0), 100, Full, Some(now), true)
  {
    assert Round(0.0 * 10.0) == 0;
  }
}
