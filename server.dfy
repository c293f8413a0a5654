/**
 * The backend server of backend/server.js: the in-memory latest reading, the
 * count of connected dashboard clients, and the handlers that act on them (an
 * MQTT message, the test-injection endpoint, a client connecting, asking for
 * data or leaving, and the start-up seeding from the database). Each handler
 * runs as one atomic step; everything it emits is appended to `outbox`.
 */
module Server {
  import opened Wrappers
  import opened Transform
  import opened Store

  /** The single MQTT topic the server subscribes to (its default configuration). */
  const MqttTopic: string := "robot/waste/sensor"

  /**
   * What `JSON.parse` makes of a message, as far as `processSensorData` can tell:
   * unparsable text, the literal `null` (reading `.distance` of it throws), an
   * object with its `distance` and `value` fields, or any other JSON value,
   * whose `.distance` and `.value` are undefined.
   */
  datatype Decoded = Malformed | JsonNull | JsonObject(payload: Payload) | JsonOther

  /** What the server emits over Socket.io. */
  datatype Event =
    | Broadcast(data: Reading)                         // io.emit('sensorData', ...)
    | Reply(data: Reading)                             // socket.emit('sensorData', ...) to one client
    | ConnectionStatus(mqttConnected: bool, topic: string)

  /** The HTTP answer of `/api/test/sensor`. */
  datatype TestResponse = BadRequest | Sent(data: Reading)

  /** The reading before anything has arrived. */
  const InitialReading: Reading := Reading(None, 0, Unknown, None, false)

  /** A database row in the shape the dashboard receives. */
  function FromRow(row: Row): (r: Reading)
    ensures r.distance == Some(row.distance) && r.capacity == row.capacity && r.status == row.status
    ensures r.timestamp == Some(row.createdAt) && r.robotOnline == row.robotOnline
  {
    Reading(Some(row.distance), row.capacity, row.status, Some(row.createdAt), row.robotOnline)
  }

  /**
   * What a client is sent on connecting or on `requestData`: the latest database
   * row when the query answers with one; otherwise (an empty table or a failed
   * query) the cached reading, but only once it has a timestamp.
   */
  function Reconcile(fromDb: Result<Option<Row>>, cache: Reading): (r: Option<Reading>)
    ensures fromDb.Ok? && fromDb.value.Some? ==> r == Some(FromRow(fromDb.value.value))
    ensures !(fromDb.Ok? && fromDb.value.Some?) ==> r == (if cache.timestamp.Some? then Some(cache) else None)
  {
    match fromDb
    case Ok(Some(row)) => Some(FromRow(row))
    case _ => if cache.timestamp.Some? then Some(cache) else None
  }

  function Replies(r: Option<Reading>): (es: seq<Event>)
    ensures |es| <= 1
    ensures r.Some? ==> es == [Reply(r.value)]
    ensures r.None? ==> es == []
  {
    if r.Some? then [Reply(r.value)] else []
  }

  /**
   * The payload `processSensorData` sees, for the messages it is reached with:
   * a JSON value that is not an object has neither field, so it reads as 0 cm.
   */
  function PayloadOf(msg: Decoded): (p: Payload)
    requires msg.JsonObject? || msg.JsonOther?
    ensures msg.JsonObject? ==> p == msg.payload
    ensures msg.JsonOther? ==> RawDistance(p) == 0.0
  {
    if msg.JsonObject? then msg.payload else Payload(Absent, Absent)
  }

  /**
   * The row `saveSensorData` inserts for a processed reading: the id the table
   * assigns, the distance as DECIMAL(5,2) keeps it, and `createdAt` from the
   * database's own clock rather than the reading's timestamp.
   */
  function StoredRow(id: int, data: Reading, createdAt: int): (r: Row)
    requires data.distance.Some?
    ensures r.id == id && r.createdAt == createdAt
    ensures r.distance == ToCents(data.distance.value)
    ensures r.capacity == data.capacity && r.status == data.status && r.robotOnline == data.robotOnline
  {
    Row(id, ToCents(data.distance.value), data.capacity, data.status, data.robotOnline, createdAt)
  }

  /** The insert succeeds unless the storage layer fails or the distance overflows DECIMAL(5,2). */
  predicate Saves(data: Reading, saveFails: bool)
    requires data.distance.Some?
  {
    !saveFails && -DecimalMax <= ToCents(data.distance.value) <= DecimalMax
  }

  /**
   * Which processed readings the insert accepts: the distance, rounded to
   * tenths, fits DECIMAL(5,2) exactly when the raw distance lies in
   * [-999.95, 999.95).
   */
  lemma SavesExactlyInRange(p: Payload, now: int, saveFails: bool)
    ensures Saves(ProcessSensorData(p, now), saveFails) <==> !saveFails && -999.95 <= RawDistance(p) < 999.95
  {
    var d := RawDistance(p);
    var k := Round(d * 10.0);
    var t := RoundTenth(d);
    assert t == k as real / 10.0;
    TenthsStoreExactly(d);
    assert -DecimalMax <= t <= DecimalMax <==> -9999 <= k <= 9999;
  }

  /**
   * A reading that was saved and broadcast is what a client that connects next
   * is sent, whatever the cache holds: the same distance (already at tenths,
   * so DECIMAL(5,2) keeps it), capacity, status and online flag, stamped with
   * the database's `created_at` instead of the broadcast's timestamp.
   */
  lemma SavedReadingIsReplayed(rows: seq<Row>, p: Payload, now: int, createdAt: int, id: int, cache: Reading)
    requires forall y :: y in rows ==> y.createdAt <= createdAt
    ensures var data := ProcessSensorData(p, now);
            var sent := Reconcile(Ok(LatestRow(rows + [StoredRow(id, data, createdAt)])), cache);
            && sent == Some(FromRow(StoredRow(id, data, createdAt)))
            && sent == Some(Reading(data.distance, data.capacity, data.status, Some(createdAt), data.robotOnline))
            && sent.value.distance == data.distance
            && sent.value.capacity == data.capacity
            && sent.value.status == data.status
            && sent.value.robotOnline == data.robotOnline
            && sent.value.timestamp == Some(createdAt)
  {
    var data := ProcessSensorData(p, now);
    LatestAfterAppend(rows, StoredRow(id, data, createdAt));
    TenthsStoreExactly(RawDistance(p));
  }

  class Server {
    /** `latestSensorData` */
    var latest: Reading
    /** `connectedClients` */
    var connectedClients: int
    /** Everything emitted so far, oldest first. */
    var outbox: seq<Event>
    /** The database behind `saveSensorData` and `getLatestData`. */
    const db: Table

    ghost predicate Valid()
      reads this, db
    {
      db.Valid()
    }

    constructor (db: Table)
      requires db.Valid()
      ensures Valid() && this.db == db
      ensures latest == InitialReading && connectedClients == 0 && outbox == []
    {
      this.db := db;
      latest := InitialReading;
      connectedClients := 0;
      outbox := [];
    }

    /**
     * `startServer`: a failed database initialisation aborts start-up; otherwise
     * the latest row, when the read succeeds and finds one, seeds the cache.
     */
    method Startup(initFails: bool, readFails: bool) returns (started: bool)
      requires Valid()
      modifies this
      ensures Valid() && outbox == old(outbox) && connectedClients == old(connectedClients)
      ensures started <==> !initFails
      ensures started && !readFails && LatestRow(db.rows).Some?
              ==> latest == FromRow(LatestRow(db.rows).value)
      ensures !(started && !readFails && LatestRow(db.rows).Some?) ==> latest == old(latest)
    {
      if initFails {
        return false;
      }
      var fromDb := db.GetLatestData(readFails);
      if fromDb.Ok? && fromDb.value.Some? {
        latest := FromRow(fromDb.value.value);
      }
      started := true;
    }

    /**
     * The MQTT `message` handler. A message that does not parse, or parses to
     * `null`, changes nothing. Otherwise the reading replaces the cache, is
     * saved when the insert succeeds, and is broadcast either way.
     */
    method OnMqttMessage(msg: Decoded, now: int, dbNow: int, saveFails: bool)
      requires Valid()
      modifies this, db
      ensures Valid() && connectedClients == old(connectedClients)
      ensures msg.Malformed? || msg.JsonNull? ==>
                latest == old(latest) && outbox == old(outbox) && db.rows == old(db.rows) && db.nextId == old(db.nextId)
      ensures msg.JsonObject? || msg.JsonOther? ==>
                var data := ProcessSensorData(PayloadOf(msg), now);
                && latest == data
                && outbox == old(outbox) + [Broadcast(data)]
                && db.rows == (if Saves(data, saveFails) then old(db.rows) + [StoredRow(old(db.nextId), data, dbNow)]
                               else old(db.rows))
                && db.nextId == old(db.nextId) + (if Saves(data, saveFails) then 1 else 0)
    {
      if msg.Malformed? || msg.JsonNull? {
        return;
      }
      var data := ProcessSensorData(PayloadOf(msg), now);
      latest := data;
      var saved := db.Save(data.distance.value, data.capacity, data.status, data.robotOnline, dbNow, saveFails);
      outbox := outbox + [Broadcast(data)];
    }

    /**
     * `POST /api/test/sensor`. Without a `distance` the answer is 400 and
     * nothing changes; otherwise it behaves as an MQTT message carrying that
     * distance, and answers with the reading.
     */
    method TestSensor(distance: Field, now: int, dbNow: int, saveFails: bool) returns (resp: TestResponse)
      requires Valid()
      modifies this, db
      ensures Valid() && connectedClients == old(connectedClients)
      ensures distance.Absent? ==>
                resp == BadRequest && latest == old(latest) && outbox == old(outbox) && db.rows == old(db.rows)
                && db.nextId == old(db.nextId)
      ensures !distance.Absent? ==>
                var data := ProcessSensorData(Payload(distance, Absent), now);
                && resp == Sent(data)
                && latest == data
                && outbox == old(outbox) + [Broadcast(data)]
                && db.rows == (if Saves(data, saveFails) then old(db.rows) + [StoredRow(old(db.nextId), data, dbNow)]
                               else old(db.rows))
                && db.nextId == old(db.nextId) + (if Saves(data, saveFails) then 1 else 0)
    {
      if distance.Absent? {
        return BadRequest;
      }
      var data := ProcessSensorData(Payload(distance, Absent), now);
      latest := data;
      var saved := db.Save(data.distance.value, data.capacity, data.status, data.robotOnline, dbNow, saveFails);
      outbox := outbox + [Broadcast(data)];
      resp := Sent(data);
    }

    /** The reconciliation both `connection` and `requestData` perform. */
    method SendLatest(readFails: bool)
      requires Valid()
      modifies this`outbox
      ensures outbox == old(outbox) + Replies(Reconcile(if readFails then Err("query failed") else Ok(LatestRow(db.rows)), latest))
    {
      var fromDb := db.GetLatestData(readFails);
      var reply := Reconcile(fromDb, latest);
      if reply.Some? {
        outbox := outbox + [Reply(reply.value)];
      }
    }

    /** `io.on('connection')`: count the client, reconcile, then report the MQTT status. */
    method OnConnect(readFails: bool, mqttConnected: bool)
      requires Valid()
      modifies this
      ensures Valid() && latest == old(latest)
      ensures connectedClients == old(connectedClients) + 1
      ensures outbox == old(outbox)
                        + Replies(Reconcile(if readFails then Err("query failed") else Ok(LatestRow(db.rows)), latest))
                        + [ConnectionStatus(mqttConnected, MqttTopic)]
    {
      connectedClients := connectedClients + 1;
      SendLatest(readFails);
      outbox := outbox + [ConnectionStatus(mqttConnected, MqttTopic)];
    }

    /** `socket.on('requestData')` */
    method OnRequestData(readFails: bool)
      requires Valid()
      modifies this
      ensures Valid() && latest == old(latest) && connectedClients == old(connectedClients)
      ensures outbox == old(outbox)
                        + Replies(Reconcile(if readFails then Err("query failed") else Ok(LatestRow(db.rows)), latest))
    {
      SendLatest(readFails);
    }

    /** `socket.on('disconnect')` */
    method OnDisconnect()
      requires Valid()
      modifies this
      ensures Valid() && latest == old(latest) && outbox == old(outbox)
      ensures connectedClients == old(connectedClients) - 1
    {
      connectedClients := connectedClients - 1;
    }
  }

  /**
   * A whole exchange: a reading arrives at `now` on the backend's clock and is
   * saved at `dbNow` on the database's, then a client connects and is sent the
   * stored row, which carries the broadcast reading's values.
   */
  method MessageThenConnect(s: Server, p: Payload, now: int, dbNow: int)
    requires s.Valid()
    requires forall y :: y in s.db.rows ==> y.createdAt <= dbNow
    requires -999.95 <= RawDistance(p) < 999.95
    modifies s, s.db
    ensures var data := ProcessSensorData(p, now);
            var replayed := FromRow(StoredRow(old(s.db.nextId), data, dbNow));
            && s.outbox == old(s.outbox) + [Broadcast(data), Reply(replayed), ConnectionStatus(true, MqttTopic)]
            && replayed == Reading(data.distance, data.capacity, data.status, Some(dbNow), data.robotOnline)
  {
    ghost var before := s.db.rows;
    ghost var id := s.db.nextId;
    ghost var data := ProcessSensorData(p, now);
    ghost var row := StoredRow(id, data, dbNow);
    ghost var replayed := FromRow(row);
    assert Saves(data, false) by {
      SavesExactlyInRange(p, now, false);
    }
    s.OnMqttMessage(JsonObject(p), now, dbNow, false);
    assert s.latest == data;
    assert s.outbox == old(s.outbox) + [Broadcast(data)];
    assert s.db.rows == before + [row];
    assert Reconcile(Ok(LatestRow(s.db.rows)), s.latest) == Some(replayed)
           && replayed == Reading(data.distance, data.capacity, data.status, Some(dbNow), data.robotOnline) by {
      SavedReadingIsReplayed(before, p, now, dbNow, id, data);
    }
    s.OnConnect(false, true);
  }
}
