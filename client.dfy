/**
 * The dashboard's live state in frontend/src/App.jsx: the last reading, the
 * transport flag, the 50-entry live history, the alert banner, and the
 * watchdog that declares the device offline after 10 000 ms without data.
 * Time is the abstract millisecond clock `Date.now()` reads.
 */
module Client {
  import opened Wrappers
  import opened Transform

  /** `CONNECTION_TIMEOUT`, in ms. */
  const ConnectionTimeout: int := 10000
  /** The live history keeps this many readings. */
  const HistoryLimit: nat := 50

  datatype AlertType = Warning | Danger

  const FullMessage: string := "\U{1F6A8} Waste Bin is FULL! Please empty immediately."
  const NearlyFullMessage: string := "⚠️ Waste Bin is nearly full (80%+)"

  /** The alert a received reading raises, by its capacity. */
  function AlertFor(capacity: int): (a: Option<(string, AlertType)>)
    ensures a == Some((FullMessage, Danger)) <==> capacity >= 100
    ensures a == Some((NearlyFullMessage, Warning)) <==> 80 <= capacity < 100
    ensures a.None? <==> capacity < 80
  {
    if capacity >= 100 then Some((FullMessage, Danger))
    else if capacity >= 80 then Some((NearlyFullMessage, Warning))
    else None
  }

  /** The last `n` elements of `s` (all of them when there are fewer): `s.slice(-n)` for n > 0. */
  function LastN<T>(s: seq<T>, n: nat): (r: seq<T>)
    ensures |r| == if |s| <= n then |s| else n
    ensures forall k :: 0 <= k < |r| ==> r[k] == s[|s| - |r| + k]
  {
    if |s| <= n then s else s[|s| - n..]
  }

  /** `[...prev, data].slice(-50)`: at most 50 entries, one more than before until the limit, the newest last. */
  function Window(prev: seq<Reading>, data: Reading): (w: seq<Reading>)
    ensures 0 < |w| <= HistoryLimit
    ensures |w| == if |prev| < HistoryLimit then |prev| + 1 else HistoryLimit
    ensures w[|w| - 1] == data
  {
    LastN(prev + [data], HistoryLimit)
  }

  /**
   * The window as a queue: below 50 entries the reading is appended; at 50
   * the oldest entry drops out. The newest entry is always last.
   */
  lemma WindowIsQueue(prev: seq<Reading>, data: Reading)
    requires |prev| <= HistoryLimit
    ensures Window(prev, data) == if |prev| < HistoryLimit then prev + [data] else prev[1..] + [data]
    ensures |Window(prev, data)| <= HistoryLimit
    ensures Window(prev, data)[|Window(prev, data)| - 1] == data
  {
    var w := Window(prev, data);
    if |prev| == HistoryLimit {
      assert w == prev[1..] + [data];
    }
  }

  /** The history after a run of readings, one window step each: the last reading ends it. */
  function PushAll(h: seq<Reading>, ds: seq<Reading>): (r: seq<Reading>)
    ensures ds != [] ==> 0 < |r| <= HistoryLimit && r[|r| - 1] == ds[|ds| - 1]
    decreases |ds|
  {
    if ds == [] then h else PushAll(Window(h, ds[0]), ds[1..])
  }

  lemma LastNOfLastN<T>(s: seq<T>, x: T, n: nat)
    requires n > 0
    ensures LastN(LastN(s, n) + [x], n) == LastN(s + [x], n)
  {
  }

  /** However many readings arrive, the history is the last 50 of all of them. */
  lemma {:induction false} PushAllKeepsLast(h: seq<Reading>, ds: seq<Reading>)
    ensures PushAll(LastN(h, HistoryLimit), ds) == LastN(h + ds, HistoryLimit)
    decreases |ds|
  {
    if ds != [] {
      LastNOfLastN(h, ds[0], HistoryLimit);
      assert h + ds == (h + [ds[0]]) + ds[1..];
      PushAllKeepsLast(h + [ds[0]], ds[1..]);
    }
  }

  class Dashboard {
    /** `sensorData` */
    var sensorData: Reading
    /** `isConnected` */
    var isConnected: bool
    /** `history` */
    var history: seq<Reading>
    var showAlert: bool
    var alertMessage: string
    var alertType: AlertType
    /** `lastDataTimeRef.current` */
    var lastDataTime: int
    /** How many `requestData` messages the page has emitted. */
    var requestsSent: nat

    ghost predicate Valid()
      reads this
    {
      |history| <= HistoryLimit
    }

    /** The state the page mounts with, `now` being `Date.now()` at mount. */
    constructor (now: int)
      ensures Valid()
      ensures sensorData == Reading(Some(0.0), 0, Unknown, None, false)
      ensures !isConnected && history == [] && !showAlert && alertMessage == "" && alertType == Warning
      ensures lastDataTime == now && requestsSent == 0
    {
      sensorData := Reading(Some(0.0), 0, Unknown, None, false);
      isConnected := false;
      history := [];
      showAlert := false;
      alertMessage := "";
      alertType := Warning;
      lastDataTime := now;
      requestsSent := 0;
    }

    /** The socket's `connect`: connected, the inactivity timer restarts, and one `requestData` goes out. */
    method OnConnect(now: int)
      requires Valid()
      modifies this
      ensures Valid()
      ensures isConnected && lastDataTime == now && requestsSent == old(requestsSent) + 1
      ensures sensorData == old(sensorData) && history == old(history)
      ensures showAlert == old(showAlert) && alertMessage == old(alertMessage) && alertType == old(alertType)
    {
      isConnected := true;
      lastDataTime := now;
      requestsSent := requestsSent + 1;
    }

    /** The socket's `disconnect`: only the transport flag drops. */
    method OnDisconnect()
      requires Valid()
      modifies this
      ensures Valid()
      ensures !isConnected
      ensures sensorData == old(sensorData) && history == old(history) && lastDataTime == old(lastDataTime)
      ensures requestsSent == old(requestsSent)
      ensures showAlert == old(showAlert) && alertMessage == old(alertMessage) && alertType == old(alertType)
    {
      isConnected := false;
    }

    /** `triggerAlert(message, type)`: the banner shows with that message and type. */
    method TriggerAlert(message: string, kind: AlertType)
      requires Valid()
      modifies this
      ensures Valid()
      ensures showAlert && alertMessage == message && alertType == kind
      ensures sensorData == old(sensorData) && isConnected == old(isConnected) && history == old(history)
      ensures lastDataTime == old(lastDataTime) && requestsSent == old(requestsSent)
    {
      alertMessage := message;
      alertType := kind;
      showAlert := true;
    }

    /** The 5-second timeout `triggerAlert` schedules: it only hides the banner. */
    method HideAlert()
      requires Valid()
      modifies this
      ensures Valid()
      ensures !showAlert && alertMessage == old(alertMessage) && alertType == old(alertType)
      ensures sensorData == old(sensorData) && isConnected == old(isConnected) && history == old(history)
      ensures lastDataTime == old(lastDataTime) && requestsSent == old(requestsSent)
    {
      showAlert := false;
    }

    /**
     * The socket's `sensorData`: the reading replaces the shown one, the page
     * counts as connected, the reading joins the history window, and a
     * capacity of 80 or more raises the matching alert.
     */
    method OnSensorData(data: Reading, now: int)
      requires Valid()
      modifies this
      ensures Valid()
      ensures lastDataTime == now && sensorData == data && isConnected
      ensures history == Window(old(history), data)
      ensures requestsSent == old(requestsSent)
      ensures AlertFor(data.capacity).Some? ==>
                showAlert && (alertMessage, alertType) == AlertFor(data.capacity).value
      ensures AlertFor(data.capacity).None? ==>
                showAlert == old(showAlert) && alertMessage == old(alertMessage) && alertType == old(alertType)
    {
      lastDataTime := now;
      sensorData := data;
      isConnected := true;
      WindowIsQueue(history, data);
      history := Window(history, data);
      var alert := AlertFor(data.capacity);
      if alert.Some? {
        TriggerAlert(alert.value.0, alert.value.1);
      }
    }

    /**
     * One watchdog interval: more than `ConnectionTimeout` ms since the last
     * data marks the page disconnected and the device offline, keeping every
     * other field of the reading; otherwise nothing changes.
     */
    method WatchdogTick(now: int)
      requires Valid()
      modifies this
      ensures Valid()
      ensures now - old(lastDataTime) > ConnectionTimeout ==>
                !isConnected && sensorData == old(sensorData).(robotOnline := false)
      ensures now - old(lastDataTime) <= ConnectionTimeout ==>
                isConnected == old(isConnected) && sensorData == old(sensorData)
      ensures history == old(history) && lastDataTime == old(lastDataTime) && requestsSent == old(requestsSent)
      ensures showAlert == old(showAlert) && alertMessage == old(alertMessage) && alertType == old(alertType)
    {
      if now - lastDataTime > ConnectionTimeout {
        isConnected := false;
        sensorData := sensorData.(robotOnline := false);
      }
    }
  }

  /** A tick no later than 10 000 ms after a reading leaves the device online. */
  method ReadingThenTick(c: Dashboard, data: Reading, t: int, later: int)
    requires c.Valid() && t <= later <= t + ConnectionTimeout
    modifies c
    ensures c.Valid() && c.isConnected && c.sensorData == data
  {
    c.OnSensorData(data, t);
    c.WatchdogTick(later);
  }

  /** Silence past the timeout marks the device offline; the next reading brings it back. */
  method SilenceThenReading(c: Dashboard, data: Reading, t: int)
    requires c.Valid() && t - c.lastDataTime > ConnectionTimeout && data.robotOnline
    modifies c
    ensures c.Valid() && c.isConnected && c.sensorData.robotOnline
  {
    c.WatchdogTick(t);
    assert !c.isConnected && !c.sensorData.robotOnline;
    c.OnSensorData(data, t);
  }
}
