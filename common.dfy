/** Small value types shared by every module of the model. */
module Options {

  /** A value that may be unset (Python's `None`). */
  datatype Option<T> = None | Some(value: T)
}

/** What the components hand to the MQTT broker. */
module Messaging {

  /** One `client.publish(topic, payload)` call. */
  datatype Publish = Publish(topic: string, payload: string)

  /** The two actuator command tokens. */
  const On: string := "ON"
  const Off: string := "OFF"
}
