/**
 * One controller instance (the shared base class with its subsystem's
 * configuration): it turns sensor readings into actuator commands, records
 * both in the shared store, and can restore its last values from there.
 */
module Controllers {
  import opened Options
  import opened Messaging
  import opened History
  import opened Subsystems

  /** A JSON value inside a sensor payload. */
  datatype JsonValue = JNumber(number: real) | JString(text: string)

  /** A sensor message: text that is not JSON, or a decoded JSON object. */
  datatype Payload = Undecodable | Object(fields: map<string, JsonValue>)

  /** The payload key that carries the reading. */
  const ValueKey: string := "valor"

  /** The default `role` argument of every controller constructor. */
  const DefaultRole: string := "Primary"

  /** The `limit` default of `get_historical_sensor_data`. */
  const DefaultHistoryLimit: nat := 50

  /** A reading the handler can take: the key is present. */
  predicate HasReading(p: Payload)
  {
    p.Object? && ValueKey in p.fields
  }

  /**
   * A non-numeric "valor" would raise a TypeError in the threshold comparison,
   * which the handler does not catch; callers only deliver numeric readings.
   */
  predicate NumericReading(p: Payload)
  {
    HasReading(p) ==> p.fields[ValueKey].JNumber?
  }

  /** `f"{name} ({role})"`: the identity under which a controller stores and recovers history. */
  function ControllerName(kind: Subsystem, role: string): string
  {
    kind.BaseName() + " (" + role + ")"
  }

  /** A name determines both the subsystem and the role it was built from. */
  lemma ControllerNameInjective(k1: Subsystem, r1: string, k2: Subsystem, r2: string)
    ensures ControllerName(k1, r1) == ControllerName(k2, r2) ==> k1 == k2 && r1 == r2
  {
    var n1, n2 := ControllerName(k1, r1), ControllerName(k2, r2);
    if n1 == n2 {
      assert n1[0] == k1.BaseName()[0] && n1[1] == k1.BaseName()[1];
      assert n2[0] == k2.BaseName()[0] && n2[1] == k2.BaseName()[1];
      assert k1 == k2;
      var b := |k1.BaseName()| + 2;
      assert n1[b..|n1| - 1] == r1;
      assert n2[b..|n2| - 1] == r2;
    }
  }

  /** One entry of `get_historical_sensor_data`: {timestamp, value}. */
  datatype HistoryEntry = HistoryEntry(timestamp: nat, value: real)

  class Controller {
    const kind: Subsystem
    const role: string
    const name: string
    /** The shared `controller_data` collection. */
    const store: Store
    var sensorLast: Option<real>
    var actuatorLast: Option<string>
    /** Whether the controller's own sensor is publishing. */
    var sensorOn: bool
    /** Messages this controller's MQTT client has published, oldest first. */
    var outbox: seq<Publish>
    /** Connected to the broker with its network loop running. */
    ghost var started: bool

    /** A controller as constructed: nothing received, nothing sent, not connected. */
    ghost predicate Pristine()
      reads this
    {
      sensorLast == None && actuatorLast == None && !sensorOn && outbox == [] && !started
    }

    constructor (kind: Subsystem, role: string, store: Store)
      ensures this.kind == kind && this.role == role && this.store == store
      ensures name == ControllerName(kind, role)
      ensures Pristine()
    {
      this.kind := kind;
      this.role := role;
      this.name := ControllerName(kind, role);
      this.store := store;
      sensorLast := None;
      actuatorLast := None;
      sensorOn := false;
      outbox := [];
      started := false;
    }

    /**
     * The document `store_data_in_db` writes: the sensor topic exactly when
     * the value is a reading, the actuator topic otherwise.
     */
    function Document(entry: Entry, now: nat): (r: Record)
      ensures r.controller == name && r.timestamp == now && r.entry == entry
      ensures r.topic == kind.SensorTopic() <==> entry.DataType() == Sensor
      ensures r.topic == kind.ActuatorTopic() <==> entry.DataType() == Actuator
    {
      TopicsDistinct(kind, kind);
      Record(name, now, if entry.DataType() == Sensor then kind.SensorTopic() else kind.ActuatorTopic(), entry)
    }

    /** Connect, subscribe to the sensor topic and run the network loop. */
    method Start()
      modifies this`started
      ensures started
    {
      started := true;
    }

    /** Stop the network loop and disconnect; the owned sensor is left as it is. */
    method Stop()
      modifies this`started
      ensures !started
    {
      started := false;
    }

    method StoreDataInDb(entry: Entry, now: nat)
      requires store.online
      modifies store`records
      ensures store.records == old(store.records) + [Document(entry, now)]
    {
      store.InsertOne(Document(entry, now));
    }

    /** Remember, publish and record one command. */
    method SendCommand(command: string, now: nat)
      requires store.online
      modifies this`actuatorLast, this`outbox, store`records
      ensures actuatorLast == Some(command)
      ensures outbox == old(outbox) + [Publish(kind.ActuatorTopic(), command)]
      ensures store.records == old(store.records) + [Document(Command(command), now)]
    {
      actuatorLast := Some(command);
      outbox := outbox + [Publish(kind.ActuatorTopic(), command)];
      StoreDataInDb(Command(command), now);
    }

    method ProcessSensorData(value: real, now: nat)
      requires store.online
      modifies this`actuatorLast, this`outbox, store`records
      ensures actuatorLast == Some(kind.Decide(value))
      ensures outbox == old(outbox) + [Publish(kind.ActuatorTopic(), kind.Decide(value))]
      ensures store.records == old(store.records) + [Document(Command(kind.Decide(value)), now)]
    {
      SendCommand(kind.Decide(value), now);
    }

    /**
     * The MQTT message handler. A reading is decided on (and the command
     * recorded) before it becomes the last sensor value and is recorded
     * itself; a payload that is not JSON or has no reading changes nothing.
     */
    method OnMessage(payload: Payload, now: nat)
      requires NumericReading(payload)
      requires HasReading(payload) ==> store.online
      modifies this`sensorLast, this`actuatorLast, this`outbox, store`records
      ensures !HasReading(payload) ==>
                && sensorLast == old(sensorLast) && actuatorLast == old(actuatorLast)
                && outbox == old(outbox) && store.records == old(store.records)
      ensures HasReading(payload) ==>
                var value := payload.fields[ValueKey].number;
                var command := kind.Decide(value);
                && sensorLast == Some(value)
                && actuatorLast == Some(command)
                && outbox == old(outbox) + [Publish(kind.ActuatorTopic(), command)]
                && store.records == old(store.records) + [Document(Command(command), now), Document(Reading(value), now)]
    {
      if payload.Undecodable? || ValueKey !in payload.fields {
        return;
      }
      var value := payload.fields[ValueKey].number;
      ProcessSensorData(value, now);
      sensorLast := Some(value);
      StoreDataInDb(Reading(value), now);
    }

    /**
     * Restore the last values from the newest records stored under this
     * controller's own name; each field is kept when nothing matches, and both
     * are kept when the store cannot be read.
     */
    method RecoverStateFromDb()
      modifies this`sensorLast, this`actuatorLast
      ensures sensorLast ==
                if store.online && LatestReading(store.records, name).Some?
                then LatestReading(store.records, name) else old(sensorLast)
      ensures actuatorLast ==
                if store.online && LatestCommand(store.records, name).Some?
                then LatestCommand(store.records, name) else old(actuatorLast)
    {
      if !store.online {
        return;
      }
      var lastSensor := LatestReading(store.records, name);
      var lastActuator := LatestCommand(store.records, name);
      if lastSensor.Some? {
        sensorLast := lastSensor;
      }
      if lastActuator.Some? {
        actuatorLast := lastActuator;
      }
    }

    /** Start or stop the owned sensor on "on" / "off"; any other action does nothing. */
    method ControlSensor(action: string)
      modifies this`sensorOn
      ensures sensorOn == if action == "on" then true else if action == "off" then false else old(sensorOn)
    {
      if action == "on" {
        sensorOn := true;
      } else if action == "off" {
        sensorOn := false;
      }
    }

    /** "on" sends ON, "off" sends OFF, any other action changes nothing. */
    method ControlActuator(action: string, now: nat)
      requires action == "on" || action == "off" ==> store.online
      modifies this`actuatorLast, this`outbox, store`records
      ensures ActuatorControlled(this, action, now)
    {
      if action == "on" {
        SendCommand(On, now);
      } else if action == "off" {
        SendCommand(Off, now);
      }
    }

    /**
     * The newest sensor readings stored under this controller's name, at most
     * `limit` of them (0: all), newest first; nothing when the store cannot be read.
     */
    method GetHistoricalSensorData(limit: nat) returns (entries: seq<HistoryEntry>)
      ensures !store.online ==> entries == []
      ensures store.online ==>
                var found := FindMany(store.records, name, Sensor, limit);
                && |entries| == |found|
                && forall i :: 0 <= i < |entries| ==>
                     entries[i] == HistoryEntry(found[i].timestamp, found[i].entry.reading)
      ensures limit > 0 ==> |entries| <= limit
      ensures forall i, j :: 0 <= i < j < |entries| ==> entries[i].timestamp >= entries[j].timestamp
    {
      if !store.online {
        return [];
      }
      var found := FindMany(store.records, name, Sensor, limit);
      entries := [];
      var i := 0;
      while i < |found|
        invariant 0 <= i <= |found|
        invariant |entries| == i
        invariant forall k :: 0 <= k < i ==>
                    entries[k] == HistoryEntry(found[k].timestamp, found[k].entry.reading)
      {
        entries := entries + [HistoryEntry(found[i].timestamp, found[i].entry.reading)];
        i := i + 1;
      }
      forall i, j | 0 <= i < j < |entries|
        ensures entries[i].timestamp >= entries[j].timestamp
      {
        assert found[i].timestamp >= found[j].timestamp;
      }
    }
  }

  /** The complete effect of one `send_command(command)` at time `now`. */
  twostate predicate CommandSent(c: Controller, command: string, now: nat)
    reads c, c.store
  {
    && c.actuatorLast == Some(command)
    && c.outbox == old(c.outbox) + [Publish(c.kind.ActuatorTopic(), command)]
    && c.store.records == old(c.store.records) + [c.Document(Command(command), now)]
  }

  /** The effect of `control_actuator(action)`: "on" and "off" send a command, other actions nothing. */
  twostate predicate ActuatorControlled(c: Controller, action: string, now: nat)
    reads c, c.store
  {
    if action == "on" then CommandSent(c, On, now)
    else if action == "off" then CommandSent(c, Off, now)
    else
      && c.actuatorLast == old(c.actuatorLast) && c.outbox == old(c.outbox)
      && c.store.records == old(c.store.records)
  }
}
