/**
 * The actuator agent: an ON/OFF switch that listens on its command topic and
 * announces its state on `{topic}/state` after every message.
 */
module Actuators {
  import opened Options
  import opened Messaging

  /** The state after one received command: ON and OFF set it, anything else keeps it. */
  function NextActive(active: bool, command: string): bool
  {
    if command == On then true else if command == Off then false else active
  }

  /** The state after a sequence of received commands, oldest first. */
  function ActiveAfter(active: bool, commands: seq<string>): bool
  {
    if commands == [] then active
    else NextActive(ActiveAfter(active, commands[..|commands| - 1]), commands[|commands| - 1])
  }

  /** The last ON or OFF among the commands, ignoring every other string. */
  function LastSwitch(commands: seq<string>): (r: Option<string>)
    ensures r.Some? ==> r.value == On || r.value == Off
    ensures r.None? <==> forall i :: 0 <= i < |commands| ==> commands[i] != On && commands[i] != Off
  {
    if commands == [] then None
    else
      var last := commands[|commands| - 1];
      if last == On || last == Off then Some(last) else LastSwitch(commands[..|commands| - 1])
  }

  /** An actuator is on exactly when the last valid command it received was ON. */
  lemma {:induction false} ActiveAfterLastSwitch(active: bool, commands: seq<string>)
    ensures ActiveAfter(active, commands) == match LastSwitch(commands)
                                             case None => active
                                             case Some(c) => c == On
  {
    if commands != [] {
      ActiveAfterLastSwitch(active, commands[..|commands| - 1]);
    }
  }

  class Actuator {
    const name: string
    const topic: string
    var active: bool
    /** Messages this actuator's MQTT client has published, oldest first. */
    var outbox: seq<Publish>
    /** How many times the physical action was triggered. */
    ghost var actions: nat

    constructor (name: string, topic: string)
      ensures this.name == name && this.topic == topic
      ensures !active && outbox == [] && actions == 0
    {
      this.name := name;
      this.topic := topic;
      active := false;
      outbox := [];
      actions := 0;
    }

    /** Publish "ON" or "OFF", whichever the state is, on `{topic}/state`. */
    method PublishState()
      modifies this`outbox
      ensures outbox == old(outbox) + [Publish(topic + "/state", if active then On else Off)]
    {
      var state := if active then On else Off;
      outbox := outbox + [Publish(topic + "/state", state)];
    }

    /** Switch on; the physical action runs only on an off-to-on transition. */
    method Activate()
      modifies this`active, this`actions
      ensures active
      ensures actions == old(actions) + (if old(active) then 0 else 1)
    {
      if !active {
        active := true;
        actions := actions + 1;
      }
    }

    /** Switch off; nothing happens when already off. */
    method Deactivate()
      modifies this`active
      ensures !active
    {
      if active {
        active := false;
      }
    }

    /** Handle one received command, then announce the resulting state. */
    method OnMessage(command: string)
      modifies this`active, this`actions, this`outbox
      ensures active == NextActive(old(active), command)
      ensures actions == old(actions) + (if command == On && !old(active) then 1 else 0)
      ensures outbox == old(outbox) + [Publish(topic + "/state", if active then On else Off)]
    {
      if command == On {
        Activate();
      } else if command == Off {
        Deactivate();
      }
      PublishState();
    }
  }
}
