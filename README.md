# Smart-agriculture middleware: replica pools, controllers and actuators

This project models the core of a small agricultural control system.

- Three kinds of controller: irrigation, cooling and lighting.
- Each controller turns sensor readings into ON/OFF actuator commands with a strict one-sided threshold.
- Every reading and every command is recorded in one append-only collection shared by all controllers.
- A controller can recover its last values from that collection and list its sensor history, newest first.
- The middleware process keeps one ordered pool of three controllers per subsystem. The head of a pool is the running primary.
- A manual failover stops the head, drops it, lets the next member recover and start, and appends a fresh controller.
- The middleware validates readings against a fixed range table, builds snapshots of the heads' values, and routes control strings to the head of the named pool.
- The actuator agent is an ON/OFF switch that announces its state after every message.

Files and modules:

- `common.dfy`: `Options` (the `Option` type) and `Messaging` (a publish record and the `ON`/`OFF` tokens).
- `text.dfy`: `Text`, the decimal rendering used in replica roles, with its inverse.
- `history.dfy`: `History`, the stored records, the shared `Store` class and the queries run on it.
  - `LatestIndex` is `find_one` sorted by timestamp, descending.
  - `FindMany` is `find(...).sort(...).limit(n)`.
- `subsystems.dfy`: `Subsystems`. The three controller subclasses become one datatype carrying each one's name, topics and threshold.
- `controller.dfy`: `Controllers`, the controller class.
- `actuator.dfy`: `Actuators`, the actuator class and its command state machine.
- `middleware.dfy`: `MiddlewareApp`, the middleware class, its pools, failover and routing, and the failover entry of the remote-call facade.

Modelling choices:

- Timestamps are natural numbers passed in as `now`, one per top-level call. Among records with equal timestamps, the one inserted later counts as newer.
- An MQTT publish is an append to the publishing object's `outbox`. Being connected is the ghost flag `started`.
- The store's reachability is the `online` flag.
  - A read from an unreachable store takes the source's error path: recovery keeps both values, and history is empty.
  - Only the branches that write require a reachable store, because `insert_one` errors are not caught in the source. A branch that only logs needs no store.
- Readings are `real` and are only compared, never computed with.

Where the code differs from what a reader might expect, the model follows the code:

- Promotion never rewrites a role. The appended replica is built with the default role "Primary". After two promotions of a pool of three, the roles are `Replica2, Primary, Primary`, not a single "Primary" (`TwoFailoversOfThree`, `PrimaryCountAfterFailovers`).
- A pool never shrinks as long as connecting and every store write succeed, so the "no standby available" branch is then never reached from construction (`Middleware.SimulateFailover` keeps the size at three). The model requires a reachable store. In the source, the head is popped before the new primary connects and writes to the store, so a failure at that point leaves the pool one member shorter.
- A store write failure is not caught by the code. It is not logged and ignored.
- `stop()` disconnects the client but leaves the controller's own sensor running.
- On a reading, the command is decided and recorded before the reading is stored as the last value and recorded.

## Model

| member | source | states |
|---|---|---|
| Text.NatToString | middleware_app.py:42 | `f"{i}"` renders a natural as a non-empty string of decimal digits |
| Text.ParseNatToString | middleware_app.py:42 | reading the rendered digits back gives the same number (round trip) |
| Text.NatToStringInjective | middleware_app.py:42 | different replica indexes are rendered differently |
| History.LatestIndex | controllers/controller_base.py:76-85 | `find_one` by controller and data type, newest first: the index of a matching record that no other matching record is newer than (ties go to the later insertion), and None exactly when nothing matches |
| History.LatestReading | controllers/controller_base.py:76-79 | the value of the newest sensor record of a name; None exactly when that name has no sensor record |
| History.LatestCommand | controllers/controller_base.py:82-85 | the value of the newest actuator record of a name; None exactly when that name has no actuator record |
| History.Matches | controllers/controller_base.py:77 | the query filter `{"controller": name, "data_type": dt}`, shared by both recovery lookups (line 83) and the history query (line 125): a record matches exactly when both fields are equal |
| History.Select | controllers/controller_base.py:124-125 | the filter keeps exactly the records of that controller and data type |
| History.InsertNewestFirst | controllers/controller_base.py:126 | inserting into a newest-first list keeps it newest-first and adds exactly that record (multiset) |
| History.NewestFirst | controllers/controller_base.py:126 | the descending timestamp sort is ordered and is a permutation of its input |
| History.FindMany | controllers/controller_base.py:124-127 | the history query: at most `limit` records when the limit is positive, newest first, each a matching record of the store |
| History.SelectCounts | controllers/controller_base.py:124-125 | the filter keeps every copy of a matching record and drops every copy of any other (multiset) |
| History.FindManyCount | controllers/controller_base.py:124-127 | the query returns exactly as many records as match, or exactly `limit` when more match and the limit is positive |
| History.FindManyNoDuplicates | controllers/controller_base.py:124-127 | the query returns no record more often than the filter keeps it (multiset inclusion) |
| History.FindManyCompleteCounts | controllers/controller_base.py:124-127 | counting copies: a record the query returns fewer times than the filter keeps it is no newer than anything returned, so repeated records fill the limit newest first |
| History.FindManyComplete | controllers/controller_base.py:124-127 | nothing the query leaves out is newer than anything it returns, and below the limit (or with limit 0) every matching record is returned |
| History.NewestFirstHeadIsLatest | controllers/controller_base.py:76-79 | the head of the sorted sensor history is the very record the state recovery picks, and the history is empty exactly when recovery finds nothing |
| History.HistoryHeadIsLatest | controllers/controller_base.py:120-127 | for any limit, the first history entry is the record `find_one` returns, and the history is non-empty exactly when that record exists |
| History.Store.InsertOne | controllers/controller_base.py:69 | `insert_one` appends exactly one record at the end and keeps everything before it |
| Subsystems.Subsystem.BaseName | controllers/irrigation_controller.py:8 | the `name` argument of each subclass: "Irrigação", and "Refrigeração" and "Iluminação" at line 8 of the cooling and lighting controllers |
| Subsystems.Subsystem.SensorTopic | controllers/irrigation_controller.py:9 | the `sensor_topic` argument of each subclass: soil_moisture, temperature and light under `agriculture/sensors/` |
| Subsystems.Subsystem.ActuatorTopic | controllers/irrigation_controller.py:10 | the `actuator_topic` argument of each subclass: irrigation, cooling and lighting under `agriculture/actuators/` |
| Subsystems.Subsystem.Policy | controllers/irrigation_controller.py:11 | the `limits` argument of each subclass as a one-sided rule: ON below 30 moisture, ON above 30 degrees, ON below 200 luminosity; `Decide` applies it |
| Subsystems.Subsystem.Decide | controllers/irrigation_controller.py:11-23 | exactly one command per reading, from the reading and the fixed limit alone; ON exactly when soil moisture is strictly below 30 (so 30 gives OFF), and likewise for cooling (temperature strictly above 30, cooling_controller.py lines 11-23) and lighting (luminosity strictly below 200, lighting_controller.py lines 11-23) |
| Subsystems.TopicsDistinct | controllers/irrigation_controller.py:9-10 | no sensor topic equals any actuator topic, and the subsystems' topics are pairwise different |
| Controllers.ControllerName | controllers/controller_base.py:9 | the identity `f"{name} ({role})"` under which a controller stores and recovers its records |
| Controllers.ControllerNameInjective | controllers/controller_base.py:9 | the name `f"{name} ({role})"` determines both the subsystem and the role |
| Controllers.Controller.constructor | controllers/controller_base.py:8-24 | a new controller has the role-qualified name, no last sensor value, no last command, its sensor off, nothing published and no connection |
| Controllers.Controller.Document | controllers/controller_base.py:60-68 | the stored document has the controller's name, the time and the value; its topic is the sensor topic exactly when the value is a reading, the actuator topic exactly when it is a command |
| Controllers.Controller.Start | controllers/controller_base.py:99-101 | the controller is connected afterwards |
| Controllers.Controller.Stop | controllers/controller_base.py:103-106 | the controller is disconnected afterwards and nothing else changes |
| Controllers.Controller.StoreDataInDb | controllers/controller_base.py:60-69 | exactly one document is appended to the shared store |
| Controllers.Controller.SendCommand | controllers/controller_base.py:52-58 | the last command becomes the command, it is published once on the actuator topic, and exactly one actuator record is appended; nothing else changes |
| Controllers.Controller.ProcessSensorData | controllers/irrigation_controller.py:17-23 | the subsystem's decision for the reading is sent as one command |
| Controllers.Controller.OnMessage | controllers/controller_base.py:32-47 | with a reading: the decided command is sent and recorded first, then the reading becomes the last value and is recorded, so the store grows by exactly an actuator record then a sensor record; a payload that is not JSON or has no "valor" changes nothing, with the store reachable or not |
| Controllers.Controller.RecoverStateFromDb | controllers/controller_base.py:72-97 | each last value becomes the newest stored value under the controller's own name, independently; a value with no matching record, or both when the store cannot be read, are kept |
| Controllers.Controller.ControlSensor | controllers/irrigation_controller.py:25-34 | "on" starts the owned sensor, "off" stops it, anything else leaves it as it was |
| Controllers.Controller.ControlActuator | controllers/irrigation_controller.py:36-45 | "on" has exactly the effect of sending ON, "off" of sending OFF, and anything else changes no last value, outbox or store, with the store reachable or not |
| Controllers.Controller.GetHistoricalSensorData | controllers/controller_base.py:120-138 | one {timestamp, value} entry per record of the history query, in the same order: at most `limit` (when positive), newest first; nothing when the store cannot be read |
| Actuators.NextActive | actuators/actuator_base.py:20-25 | the state after one message: ON gives active, OFF inactive, anything else keeps the state; `ActiveAfterLastSwitch` folds it over any message sequence |
| Actuators.LastSwitch | actuators/actuator_base.py:17-25 | the last ON or OFF among received commands; None exactly when no valid command was received |
| Actuators.ActiveAfterLastSwitch | actuators/actuator_base.py:17-25 | after any sequence of messages the actuator is active exactly when the last valid command was ON, and keeps its initial state when there was none |
| Actuators.Actuator.constructor | actuators/actuator_base.py:5-9 | a new actuator is inactive and has published nothing |
| Actuators.Actuator.PublishState | actuators/actuator_base.py:28-33 | exactly one publish on `{topic}/state`, "ON" exactly when active |
| Actuators.Actuator.Activate | actuators/actuator_base.py:36-40 | active afterwards; the physical action runs once on an off-to-on transition and not at all when already on |
| Actuators.Actuator.Deactivate | actuators/actuator_base.py:42-45 | inactive afterwards; a no-op when already off |
| Actuators.Actuator.OnMessage | actuators/actuator_base.py:17-26 | ON activates, OFF deactivates, anything else keeps the state; every message, valid or not, causes exactly one state publish matching the new state |
| MiddlewareApp.ValidateSensorData | middleware_app.py:10-37 | with the range table `ValidationLimits` (lines 10-14): true exactly for soil_moisture in [10, 60], luminosity in [100, 10000] and temperature in [15, 35], both bounds inclusive; false for any other type |
| MiddlewareApp.RoleLabel | middleware_app.py:42 | the created controller at index i gets "Primary" exactly when i is 0 |
| MiddlewareApp.RoleLabelInjective | middleware_app.py:41-43 | the roles given at creation are pairwise different |
| MiddlewareApp.InitialRoles | middleware_app.py:41-44 | the roles of a new pool, index by index |
| MiddlewareApp.PromotedRoles | middleware_app.py:74-90 | a promotion keeps the number of roles |
| MiddlewareApp.RolesAfter | middleware_app.py:93-96 | repeated promotions keep the number of roles |
| MiddlewareApp.RolesAfterFailovers | middleware_app.py:72-91 | after k promotions of a pool of n, the roles are the surviving original roles followed by k times "Primary", and all "Primary" once k reaches n |
| MiddlewareApp.PrimaryCountAfterFailovers | middleware_app.py:87-91 | after k promotions (1 <= k <= n) exactly k members are called "Primary" |
| MiddlewareApp.TwoFailoversOfThree | middleware_app.py:23-25 | a pool of three after two promotions has the roles Replica2, Primary, Primary |
| MiddlewareApp.HeadRoleAfterFailovers | middleware_app.py:76-79 | the head after k promotions has role "Replica{k}" while k < n, else "Primary"; two heads share a role, and so the name recovery searches under, exactly when the later one is an appended controller and the earlier one was also a "Primary" |
| MiddlewareApp.CreateReplicas | middleware_app.py:39-45 | appends exactly n fresh controllers of the class, role "Primary" at index 0 and "Replica{i}" at index i, keeping the earlier contents in front; distinct members stay distinct |
| MiddlewareApp.CreatedShape | middleware_app.py:39-45 | a pool built by `create_replicas` has the pool shape with no promotion counted |
| MiddlewareApp.CreatePool | middleware_app.py:23-25 | each constructor pool is three fresh, untouched controllers of its subsystem with the initial roles |
| MiddlewareApp.SwitchOn | middleware_app.py:65-70 | the head's sensor is on, ON is published once on its actuator topic and recorded once |
| MiddlewareApp.TakeOver | middleware_app.py:79-82 | the promoted member's last reading is recovered from the history kept before the takeover; it is then connected, its sensor is on and exactly one ON is sent and recorded |
| MiddlewareApp.ShapePromoted | middleware_app.py:72-91 | dropping the head of a well-shaped pool and appending a new default-role controller of the same class gives a well-shaped pool with one more promotion counted |
| MiddlewareApp.Middleware.constructor | middleware_app.py:16-28 | three well-shaped pools of fresh controllers with no promotion counted; every head is connected, its sensor on, exactly one ON sent, no reading yet; every standby is exactly as constructed (no last values, nothing published, not connected, sensor off), so only the heads are active; the store grows by exactly the three heads' ON records |
| MiddlewareApp.Middleware.StartAllControllers | middleware_app.py:57-70 | each head is started, its sensor switched on and one ON sent, its last reading kept; the store grows by the three ON records in irrigation, cooling, lighting order; started on pools as just built, only the heads are connected or have their sensors running |
| MiddlewareApp.StartHeads | middleware_app.py:60-70 | the three heads are connected first, then each has its sensor switched on and one ON sent, its last reading kept; the store grows by their three ON records in that order |
| MiddlewareApp.Middleware.AddNewReplica | middleware_app.py:87-91 | exactly one fresh controller of the class, with the default role "Primary" and untouched state, is appended |
| MiddlewareApp.Middleware.ActivateNextController | middleware_app.py:72-85 | on two or more members: same length, the old pool minus its head with one fresh default-role controller of the same class at the tail; the old head is disconnected with its values kept; the new head has taken over; the others are untouched. On one member or none: pool, controllers and store unchanged |
| MiddlewareApp.Middleware.SimulateFailover | middleware_app.py:93-96 | on a well-shaped pool the promoted pool is well-shaped with one more promotion counted; if only the head was connected or had its sensor on before, the same holds after |
| MiddlewareApp.Middleware.Failover | middleware_app.py:182-186 | the pool of that subsystem is promoted and its count raised by one; the other two pools and their counts are unchanged; if only the head was connected or had its sensor on before, the same holds after; the shape invariant is kept |
| MiddlewareApp.Middleware.GetSensorData | middleware_app.py:98-114 | the snapshot holds a key exactly when that head's reading passes validation, with the reading unchanged; every value it holds passes validation; out-of-range readings are left out |
| MiddlewareApp.Show | middleware_app.py:119-121 | `str` of a last command: the command itself, or "None" when unset |
| MiddlewareApp.Middleware.GetActuatorData | middleware_app.py:116-122 | the three keys map to the `str` of each head's last command, "None" when unset |
| MiddlewareApp.Middleware.ControlActuators | middleware_app.py:124-133 | "irrigation", "lighting" or "cooling" applies the action to that pool's head only, with the control_actuator effect, leaving its sensor, last reading and connection as they were; any other string changes nothing |
| MiddlewareApp.Middleware.ControlSensors | middleware_app.py:135-144 | "soil-moisture", "lighting" or "temperature" switches that pool's head's sensor only, leaving its last values, outbox and connection as they were; any other string changes nothing |
| MiddlewareApp.Middleware.GetHistoricalSensorData | middleware_app.py:146-155 | a pool name gives its head's history with the default limit of 50, newest first; any other name gives [] |
| MiddlewareApp.Middleware.GetControllersAndReplicas | middleware_app.py:48-55 | for each pool name, every member's name and role in pool order |
| MiddlewareApp.Infos | middleware_app.py:51-53 | one {name, role} entry per controller, in order |
| MiddlewareApp.PoolRoute | middleware_app.py:126-131 | a pool is selected exactly for "irrigation", "cooling" and "lighting", each its own pool |
| MiddlewareApp.SensorRoute | middleware_app.py:137-142 | irrigation exactly for "soil-moisture", cooling exactly for "temperature", lighting exactly for "lighting"; "luminosity" selects nothing |
| MiddlewareApp.MiddlewareService.constructor | middleware_app.py:158-159 | the facade wraps the given middleware |
| MiddlewareApp.MiddlewareService.SimulateFailover | middleware_app.py:179-188 | "irrigation", "cooling" or "lighting" promotes that pool only, with one more promotion counted, the head-only activity kept, and the other pools, their counts and their controllers unchanged; any other string changes nothing; the shape invariant is kept |

## Left out

- MQTT plumbing (connect, subscribe, network loop, disconnect) is left out. Being connected is the ghost flag `started`, and a publish is an append to an `outbox`.
- The database client and query engine are left out. The one shared collection is the `Store` class with a sequence of records and a reachability flag.
- `datetime.utcnow()` is replaced by a `now` parameter. The ISO 8601 formatting of history timestamps is presentation only, so a history entry keeps the numeric timestamp.
- `last_message_time` is written but never read, so it is left out.
- The remote-call server, its connection callbacks and the startup function are transport. The facade entries other than `exposed_simulate_failover` are one-line delegations to the middleware methods modelled above, so they are not repeated.
- Sensors are background threads drawing random values. A controller's owned sensor is the flag `sensorOn`, which `control_sensor` switches.
- The subsystem-specific `perform_action` of each actuator only logs. It is counted by the ghost counter `actions`.
- All logging output is left out.
- Readings are floating point in the source. They are `real` here, which is exact, and they are only ever compared with the thresholds and ranges.
- `get_sensor_last_value` and `get_actuator_last_value` only return a field. The model reads `sensorLast` and `actuatorLast` directly.
- The three controller subclasses are one datatype `Subsystem`, since they differ only in name, topics and threshold.
- Each of the three pool attributes carries a ghost promotion counter, which the source does not have. It only serves to state the roles a pool holds.
- MQTT message handlers run on the client's network thread (controllers/controller_base.py:101) and remote calls on a thread pool (middleware_app.py:201). The model treats every handler and every remote call as one atomic step, with no interleaving.
- MiddlewareApp.Middleware.GetSensorData: requires every head to hold a reading, because the source compares an unset value with the bounds and raises. No result is invented for that case.
- Controllers.Controller.OnMessage: requires a present "valor" to be a number, because a string or other non-numeric value raises in the threshold comparison and the handler does not catch it.
- JSON that decodes to something other than an object (`5`, `[1]`, `"x"`) is not modelled. In the source, `data["valor"]` then raises a TypeError that the handler's `except (json.JSONDecodeError, KeyError)` (controllers/controller_base.py:46) does not catch. `NaN` and `Infinity`, which `json.loads` accepts, are not modelled either, because readings are exact reals. A NaN compares false with every threshold, so every subsystem would decide OFF.
- JSON booleans as "valor" are not modelled. The payload type has no boolean case. In the source, `true` and `false` compare as 1 and 0, so the handler would decide a command and store the boolean itself as the reading.
- Controllers.Controller.StoreDataInDb: requires a reachable store, because a failed insert raises out of the handler, and that is not modelled.
- MiddlewareApp.Middleware.Failover: does not restate the full promotion outcome, which is stated on `Middleware.ActivateNextController`.
- MiddlewareApp.Middleware.SimulateFailover: states the new pool's shape and the head-only activity, not the full promotion outcome (the recovery from history, the ON sent and recorded, the untouched tail). That outcome is stated on `Middleware.ActivateNextController`. Restating it here puts it into every caller's proof and pushes `Middleware.Failover` past the verification budget.
- MiddlewareApp.MiddlewareService.SimulateFailover: for the same reason, it does not restate the full promotion outcome.
- MiddlewareApp.Middleware.Valid: holds the pools' shapes only. That only a pool's head is connected is established by the constructor and proved per promotion by `Middleware.SimulateFailover`, not kept as a class invariant across all operations.
