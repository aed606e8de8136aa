/**
 * The three controller subclasses (irrigation, cooling, lighting) as data:
 * each supplies a display name, its two topics and a one-sided threshold.
 */
module Subsystems {
  import opened Messaging

  /** Which side of the limit switches the actuator on. */
  datatype Policy = OnBelow(limit: real) | OnAbove(limit: real) {
    predicate Triggers(value: real) {
      match this
      case OnBelow(limit) => value < limit
      case OnAbove(limit) => value > limit
    }
  }

  datatype Subsystem = Irrigation | Cooling | Lighting {

    /** The `name` passed to the base constructor, before the role is added. */
    function BaseName(): string {
      match this
      case Irrigation => "Irrigação"
      case Cooling => "Refrigeração"
      case Lighting => "Iluminação"
    }

    function SensorTopic(): string {
      match this
      case Irrigation => "agriculture/sensors/soil_moisture"
      case Cooling => "agriculture/sensors/temperature"
      case Lighting => "agriculture/sensors/light"
    }

    function ActuatorTopic(): string {
      match this
      case Irrigation => "agriculture/actuators/irrigation"
      case Cooling => "agriculture/actuators/cooling"
      case Lighting => "agriculture/actuators/lighting"
    }

    /** min_moisture 30, max_temperature 30, min_luminosity 200. */
    function Policy(): Policy {
      match this
      case Irrigation => OnBelow(30.0)
      case Cooling => OnAbove(30.0)
      case Lighting => OnBelow(200.0)
    }

    /**
     * The command `process_sensor_data` sends for a reading: always exactly
     * one, from the reading and the fixed limit alone, with strict comparisons.
     */
    function Decide(value: real): (command: string)
      ensures command == On || command == Off
      ensures command == On <==>
                (|| (this == Irrigation && value < 30.0)
                 || (this == Cooling && value > 30.0)
                 || (this == Lighting && value < 200.0))
    {
      if Policy().Triggers(value) then On else Off
    }
  }

  /** Each subsystem's sensor topic differs from its actuator topic and from every other subsystem's topics. */
  lemma TopicsDistinct(a: Subsystem, b: Subsystem)
    ensures a.SensorTopic() != b.ActuatorTopic()
    ensures a != b ==> a.SensorTopic() != b.SensorTopic() && a.ActuatorTopic() != b.ActuatorTopic()
  {
    assert "agriculture/s"[12] != "agriculture/a"[12];
  }
}
