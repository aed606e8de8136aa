/**
 * The middleware process: one ordered pool of controllers per subsystem whose
 * head is the running primary, manual failover that promotes the next member,
 * diagnostic snapshots filtered by a static range table, and the string
 * routing of the remote-call facade.
 */
module MiddlewareApp {
  import opened Options
  import opened Messaging
  import opened Text
  import opened History
  import opened Subsystems
  import opened Controllers

  /** Each pool is built with one primary and two replicas. */
  const PoolSize: nat := 3

  /** VALIDATION_LIMITS: the inclusive range accepted for each snapshot key. */
  const ValidationLimits: map<string, (int, int)> :=
    map["soil_moisture" := (10, 60), "luminosity" := (100, 10000), "temperature" := (15, 35)]

  /** A reading passes when its type is in the table and both bounds hold, inclusively. */
  function ValidateSensorData(sensorType: string, value: real): (ok: bool)
    ensures ok <==>
              || (sensorType == "soil_moisture" && 10.0 <= value <= 60.0)
              || (sensorType == "luminosity" && 100.0 <= value <= 10000.0)
              || (sensorType == "temperature" && 15.0 <= value <= 35.0)
  {
    if sensorType in ValidationLimits then
      var (lo, hi) := ValidationLimits[sensorType];
      lo as real <= value <= hi as real
    else
      false
  }

  /** The role given to the i-th controller a pool is created with. */
  function RoleLabel(i: nat): (role: string)
    ensures role == DefaultRole <==> i == 0
  {
    if i == 0 then DefaultRole else "Replica" + NatToString(i)
  }

  /** The roles of a freshly created pool are pairwise distinct. */
  lemma RoleLabelInjective(i: nat, j: nat)
    ensures RoleLabel(i) == RoleLabel(j) ==> i == j
  {
    if i != 0 && j != 0 && RoleLabel(i) == RoleLabel(j) {
      assert RoleLabel(i)[7..] == NatToString(i);
      assert RoleLabel(j)[7..] == NatToString(j);
      NatToStringInjective(i, j);
    }
  }

  function InitialRoles(n: nat): (roles: seq<string>)
    ensures |roles| == n
    ensures forall i :: 0 <= i < n ==> roles[i] == RoleLabel(i)
  {
    seq(n, i requires 0 <= i => RoleLabel(i))
  }

  /**
   * The roles after one promotion: the head leaves, nobody is renamed, and the
   * appended controller carries the constructor's default role.
   */
  function PromotedRoles(roles: seq<string>): (r: seq<string>)
    ensures |r| == |roles|
  {
    if |roles| > 1 then roles[1..] + [DefaultRole] else roles
  }

  /** The roles after `k` promotions. */
  function RolesAfter(roles: seq<string>, k: nat): (r: seq<string>)
    ensures |r| == |roles|
  {
    if k == 0 then roles else PromotedRoles(RolesAfter(roles, k - 1))
  }

  function Repeat(role: string, k: nat): (r: seq<string>)
    ensures |r| == k && forall i :: 0 <= i < k ==> r[i] == role
  {
    seq(k, _ => role)
  }

  /**
   * Closed form of the roles of a pool of `n` after `k` promotions: the
   * surviving original roles, then one "Primary" per promotion, until every
   * member is a "Primary".
   */
  lemma {:induction false} RolesAfterFailovers(n: nat, k: nat)
    requires 2 <= n
    ensures RolesAfter(InitialRoles(n), k) ==
              if k <= n then InitialRoles(n)[k..] + Repeat(DefaultRole, k) else Repeat(DefaultRole, n)
  {
    if k > 0 {
      RolesAfterFailovers(n, k - 1);
      var prev := RolesAfter(InitialRoles(n), k - 1);
      assert |prev| == n;
      if k <= n {
        assert prev[1..] + [DefaultRole] == InitialRoles(n)[k..] + Repeat(DefaultRole, k);
      } else {
        assert prev[1..] + [DefaultRole] == Repeat(DefaultRole, n);
      }
    }
  }

  function CountRole(roles: seq<string>, role: string): nat
  {
    if roles == [] then 0
    else CountRole(roles[..|roles| - 1], role) + (if roles[|roles| - 1] == role then 1 else 0)
  }

  lemma {:induction false} CountRoleAppend(a: seq<string>, b: seq<string>, role: string)
    ensures CountRole(a + b, role) == CountRole(a, role) + CountRole(b, role)
  {
    if b == [] {
      assert a + b == a;
    } else {
      CountRoleAppend(a, b[..|b| - 1], role);
      assert (a + b)[..|a + b| - 1] == a + b[..|b| - 1];
      assert (a + b)[|a + b| - 1] == b[|b| - 1];
    }
  }

  lemma {:induction false} CountRoleAbsent(roles: seq<string>, role: string)
    requires forall i :: 0 <= i < |roles| ==> roles[i] != role
    ensures CountRole(roles, role) == 0
  {
    if roles != [] {
      CountRoleAbsent(roles[..|roles| - 1], role);
    }
  }

  lemma {:induction false} CountRoleRepeat(role: string, k: nat)
    ensures CountRole(Repeat(role, k), role) == k
  {
    if k > 0 {
      CountRoleRepeat(role, k - 1);
      assert Repeat(role, k)[..k - 1] == Repeat(role, k - 1);
    }
  }

  /**
   * Promotion does not keep a single "Primary": after k promotions of a pool
   * of n (1 <= k <= n), exactly k members carry the role "Primary".
   */
  lemma PrimaryCountAfterFailovers(n: nat, k: nat)
    requires 2 <= n && 1 <= k <= n
    ensures CountRole(RolesAfter(InitialRoles(n), k), DefaultRole) == k
  {
    RolesAfterFailovers(n, k);
    var rest := InitialRoles(n)[k..];
    CountRoleAppend(rest, Repeat(DefaultRole, k), DefaultRole);
    CountRoleAbsent(rest, DefaultRole);
    CountRoleRepeat(DefaultRole, k);
  }

  /** The pool of three after two promotions lists the roles Replica2, Primary, Primary. */
  lemma TwoFailoversOfThree()
    ensures RolesAfter(InitialRoles(PoolSize), 2) == ["Replica2", DefaultRole, DefaultRole]
  {
    RolesAfterFailovers(PoolSize, 2);
    assert DigitChar(2) == '2';
    assert RoleLabel(2) == "Replica2";
    assert InitialRoles(PoolSize)[2..] == [RoleLabel(2)];
  }

  /**
   * Whom a promoted head recovers as. Comparing the head after j promotions
   * with the head after k > j: they share a role (and so a history key)
   * exactly when the later one is a controller appended with the default role
   * and the earlier one also carried "Primary". A replica promoted out of the
   * original pool uses an identity no earlier head of the same pool used.
   */
  lemma HeadRoleAfterFailovers(n: nat, j: nat, k: nat)
    requires 2 <= n && j < k
    ensures RolesAfter(InitialRoles(n), k)[0] == (if k < n then RoleLabel(k) else DefaultRole)
    ensures RolesAfter(InitialRoles(n), j)[0] == RolesAfter(InitialRoles(n), k)[0] <==>
              k >= n && (j == 0 || j >= n)
  {
    RolesAfterFailovers(n, j);
    RolesAfterFailovers(n, k);
    RoleLabelInjective(j, k);
  }

  /** The name and role pair that `get_controllers_and_replicas` lists. */
  datatype ControllerInfo = ControllerInfo(name: string, role: string)

  ghost function Roles(pool: seq<Controller>): (roles: seq<string>)
    ensures |roles| == |pool| && forall i :: 0 <= i < |pool| ==> roles[i] == pool[i].role
  {
    seq(|pool|, i requires 0 <= i < |pool| => pool[i].role)
  }

  ghost predicate Distinct(pool: seq<Controller>)
  {
    forall i, j :: 0 <= i < j < |pool| ==> pool[i] != pool[j]
  }

  lemma DistinctPromoted(pool: seq<Controller>, c: Controller)
    requires |pool| > 0 && Distinct(pool) && c !in pool
    ensures Distinct(pool[1..] + [c])
  {
    var p := pool[1..] + [c];
    forall i, j | 0 <= i < j < |p| ensures p[i] != p[j] {
      if j == |p| - 1 {
        assert p[i] == pool[i + 1];
      } else {
        assert p[i] == pool[i + 1] && p[j] == pool[j + 1];
      }
    }
  }

  /** `c` is a just-constructed controller of `kind` with role `role`. */
  ghost predicate NewController(c: Controller, kind: Subsystem, role: string, store: Store)
    reads c
  {
    c.kind == kind && c.role == role && c.name == ControllerName(kind, role) && c.store == store && c.Pristine()
  }

  /**
   * Append `n` new controllers, the first with role "Primary" and the i-th
   * with role "Replica{i}"; what the pool held before is kept in front.
   */
  method CreateReplicas(kind: Subsystem, pool: seq<Controller>, n: nat, store: Store)
    returns (pool': seq<Controller>)
    ensures |pool'| == |pool| + n && pool'[..|pool|] == pool
    ensures forall k :: |pool| <= k < |pool'| ==>
              fresh(pool'[k]) && NewController(pool'[k], kind, RoleLabel(k - |pool|), store)
    ensures Distinct(pool) ==> Distinct(pool')
  {
    pool' := pool;
    for i := 0 to n
      invariant |pool'| == |pool| + i && pool'[..|pool|] == pool
      invariant forall k :: |pool| <= k < |pool'| ==>
                  fresh(pool'[k]) && NewController(pool'[k], kind, RoleLabel(k - |pool|), store)
      invariant Distinct(pool) ==> Distinct(pool')
    {
      var role := if i == 0 then DefaultRole else "Replica" + NatToString(i);
      var c := new Controller(kind, role, store);
      assert NewController(c, kind, RoleLabel(i), store);
      ghost var prev := pool';
      pool' := pool' + [c];
      forall k | |pool| <= k < |pool'|
        ensures fresh(pool'[k]) && NewController(pool'[k], kind, RoleLabel(k - |pool|), store)
      {
        if k < |prev| {
          assert pool'[k] == prev[k];
        }
      }
    }
  }

  /** One pool as the constructor builds it: `create_replicas` of three on an empty list. */
  method CreatePool(kind: Subsystem, store: Store) returns (pool: seq<Controller>)
    ensures PoolShape(pool, kind, store, 0) && |pool| == PoolSize
    ensures forall c :: c in pool ==> fresh(c) && c.Pristine()
    ensures AllPristine(pool[1..])
  {
    pool := CreateReplicas(kind, [], PoolSize, store);
    assert forall k :: 0 <= k < |pool| ==> fresh(pool[k]) && NewController(pool[k], kind, RoleLabel(k), store);
    CreatedShape(pool, kind, store);
  }

  /** A head of a new pool after start-up: connected, sensor on, one ON sent, no reading yet. */
  ghost predicate RunningSinceStart(c: Controller)
    reads c
  {
    && c.started && c.sensorOn && c.sensorLast == None && c.actuatorLast == Some(On)
    && c.outbox == [Publish(c.kind.ActuatorTopic(), On)]
  }

  /** Switch the sensor of `c` on and send its actuator ON. */
  method SwitchOn(c: Controller, now: nat)
    requires c.store.online
    modifies c`sensorOn, c`actuatorLast, c`outbox, c.store`records
    ensures c.sensorOn && c.actuatorLast == Some(On)
    ensures c.outbox == old(c.outbox) + [Publish(c.kind.ActuatorTopic(), On)]
    ensures c.store.records == old(c.store.records) + [c.Document(Command(On), now)]
  {
    c.ControlSensor("on");
    c.ControlActuator("on", now);
  }

  /** Start three controllers of distinct subsystems, then switch each one on. */
  method StartHeads(irrigation: Controller, cooling: Controller, lighting: Controller, now: nat)
    requires irrigation.kind == Irrigation && cooling.kind == Cooling && lighting.kind == Lighting
    requires irrigation.store.online && cooling.store == irrigation.store && lighting.store == irrigation.store
    modifies irrigation, cooling, lighting, irrigation.store`records
    ensures StartedUp(irrigation) && StartedUp(cooling) && StartedUp(lighting)
    ensures irrigation.store.records ==
              old(irrigation.store.records)
              + [irrigation.Document(Command(On), now), cooling.Document(Command(On), now),
                 lighting.Document(Command(On), now)]
  {
    irrigation.Start();
    cooling.Start();
    lighting.Start();
    SwitchOn(irrigation, now);
    SwitchOn(cooling, now);
    SwitchOn(lighting, now);
  }

  /** A head after start-up: connected, sensor on, ON sent, last reading kept. */
  twostate predicate StartedUp(c: Controller)
    reads c
  {
    && c.started && c.sensorOn
    && c.sensorLast == old(c.sensorLast)
    && c.actuatorLast == Some(On)
    && c.outbox == old(c.outbox) + [Publish(c.kind.ActuatorTopic(), On)]
  }

  /**
   * What a replica does when it takes over: its state is recovered from the
   * history kept before the takeover, it is connected, its sensor is on and
   * its actuator is sent ON.
   */
  twostate predicate TookOver(c: Controller, now: nat)
    reads c, c.store
  {
    var recovered := LatestReading(old(c.store.records), c.name);
    && c.started && c.sensorOn
    && c.sensorLast == (if recovered.Some? then recovered else old(c.sensorLast))
    && c.actuatorLast == Some(On)
    && c.outbox == old(c.outbox) + [Publish(c.kind.ActuatorTopic(), On)]
    && c.store.records == old(c.store.records) + [c.Document(Command(On), now)]
  }

  /** The steps `activate_next_controller` runs on the promoted replica. */
  method TakeOver(c: Controller, now: nat)
    requires c.store.online
    modifies c, c.store`records
    ensures TookOver(c, now)
  {
    c.RecoverStateFromDb();
    c.Start();
    c.ControlSensor("on");
    c.ControlActuator("on", now);
  }

  /** Every field of `c` that its methods update holds what it held before. */
  twostate predicate Untouched(c: Controller)
    reads c
  {
    && c.sensorLast == old(c.sensorLast) && c.actuatorLast == old(c.actuatorLast)
    && c.sensorOn == old(c.sensorOn) && c.outbox == old(c.outbox) && c.started == old(c.started)
  }

  /**
   * The outcome of promoting `pool` (of two or more) into `pool'`: the old head
   * is disconnected and dropped, the next member recovers from history, is
   * started with its sensor on and sends ON, and a new controller of its
   * class with the default role joins at the tail; nothing else changes.
   */
  twostate predicate Promoted(pool: seq<Controller>, new pool': seq<Controller>, store: Store, now: nat)
    requires |pool| > 1
    reads pool, pool', store
  {
    var head, next := pool[0], pool[1];
    && |pool'| == |pool|
    && pool'[..|pool| - 1] == pool[1..]
    && fresh(pool'[|pool| - 1])
    && NewController(pool'[|pool| - 1], next.kind, DefaultRole, store)
    && !head.started
    && head.sensorOn == old(head.sensorOn)
    && head.sensorLast == old(head.sensorLast) && head.actuatorLast == old(head.actuatorLast)
    && head.outbox == old(head.outbox)
    && next.store == store && TookOver(next, now)
    && forall i :: 2 <= i < |pool| ==> Untouched(pool[i])
  }

  /**
   * The shape of a pool, fixed by its controllers' constant fields: its
   * size, distinct controllers of its own subsystem on the shared store, and
   * the roles its promotion count predicts.
   */
  ghost predicate PoolShape(pool: seq<Controller>, kind: Subsystem, store: Store, failovers: nat)
  {
    && |pool| == PoolSize
    && Distinct(pool)
    && (forall c :: c in pool ==>
          c.kind == kind && c.store == store && c.name == ControllerName(kind, c.role))
    && Roles(pool) == RolesAfter(InitialRoles(PoolSize), failovers)
  }

  /** Every one of `standbys` is as constructed: no values, nothing sent, not connected, sensor off. */
  ghost predicate AllPristine(standbys: seq<Controller>)
    reads standbys
  {
    forall c :: c in standbys ==> c.Pristine()
  }

  /** Only the head of a pool is connected or has its sensor running. */
  ghost predicate PoolActivity(pool: seq<Controller>)
    reads pool
  {
    && |pool| > 0
    && pool[0].started
    && (forall i :: 1 <= i < |pool| ==> !pool[i].started && !pool[i].sensorOn)
  }

  /** A connected head over untouched standbys gives a pool where only the head is active. */
  lemma ActivityOfPristine(pool: seq<Controller>)
    requires |pool| > 0 && pool[0].started && AllPristine(pool[1..])
    ensures PoolActivity(pool)
  {
    forall i | 1 <= i < |pool| ensures !pool[i].started && !pool[i].sensorOn {
      assert pool[i] == pool[1..][i - 1] && pool[i] in pool[1..];
    }
  }

  /** A controller that heads the pool, or is of another subsystem, is none of its standbys. */
  lemma NotStandby(pool: seq<Controller>, kind: Subsystem, store: Store, failovers: nat, c: Controller)
    requires PoolShape(pool, kind, store, failovers)
    requires c == pool[0] || c.kind != kind
    ensures c !in pool[1..]
  {
    forall i | 0 <= i < |pool| - 1 ensures pool[1..][i] != c {
      assert pool[1..][i] == pool[i + 1] && pool[i + 1] in pool;
    }
  }

  /** No head of the three pools is a standby of any of them. */
  ghost predicate HeadsApart(irrigation: seq<Controller>, cooling: seq<Controller>, lighting: seq<Controller>)
    requires |irrigation| > 0 && |cooling| > 0 && |lighting| > 0
  {
    && irrigation[0] !in irrigation[1..] && cooling[0] !in irrigation[1..] && lighting[0] !in irrigation[1..]
    && irrigation[0] !in cooling[1..] && cooling[0] !in cooling[1..] && lighting[0] !in cooling[1..]
    && irrigation[0] !in lighting[1..] && cooling[0] !in lighting[1..] && lighting[0] !in lighting[1..]
  }

  /** Three pools as just built: heads and standbys untouched, no head a standby. */
  ghost predicate ReadyToStart(irrigation: seq<Controller>, cooling: seq<Controller>, lighting: seq<Controller>)
    reads irrigation, cooling, lighting
  {
    && |irrigation| > 0 && |cooling| > 0 && |lighting| > 0
    && irrigation[0].Pristine() && cooling[0].Pristine() && lighting[0].Pristine()
    && AllPristine(irrigation[1..]) && AllPristine(cooling[1..]) && AllPristine(lighting[1..])
    && HeadsApart(irrigation, cooling, lighting)
  }

  /** No pool's head is a standby of any pool. */
  lemma HeadsNotStandbys(irrigation: seq<Controller>, cooling: seq<Controller>, lighting: seq<Controller>, store: Store)
    requires PoolShape(irrigation, Irrigation, store, 0)
    requires PoolShape(cooling, Cooling, store, 0)
    requires PoolShape(lighting, Lighting, store, 0)
    ensures HeadsApart(irrigation, cooling, lighting)
  {
    assert irrigation[0] in irrigation && cooling[0] in cooling && lighting[0] in lighting;
    NotStandby(irrigation, Irrigation, store, 0, irrigation[0]);
    NotStandby(irrigation, Irrigation, store, 0, cooling[0]);
    NotStandby(irrigation, Irrigation, store, 0, lighting[0]);
    NotStandby(cooling, Cooling, store, 0, irrigation[0]);
    NotStandby(cooling, Cooling, store, 0, cooling[0]);
    NotStandby(cooling, Cooling, store, 0, lighting[0]);
    NotStandby(lighting, Lighting, store, 0, irrigation[0]);
    NotStandby(lighting, Lighting, store, 0, cooling[0]);
    NotStandby(lighting, Lighting, store, 0, lighting[0]);
  }

  /** Dropping the head and appending a new "Primary" counts one more failover. */
  lemma ShapePromoted(pool: seq<Controller>, pool': seq<Controller>, kind: Subsystem, store: Store, failovers: nat)
    requires PoolShape(pool, kind, store, failovers)
    requires |pool'| == |pool| && pool'[..|pool| - 1] == pool[1..]
    requires var c := pool'[|pool| - 1];
             c !in pool && c.kind == kind && c.store == store
             && c.role == DefaultRole && c.name == ControllerName(kind, DefaultRole)
    ensures PoolShape(pool', kind, store, failovers + 1)
  {
    var c := pool'[|pool| - 1];
    assert pool' == pool[1..] + [c];
    DistinctPromoted(pool, c);
    assert Roles(pool') == Roles(pool)[1..] + [DefaultRole];
    forall x | x in pool'
      ensures x.kind == kind && x.store == store && x.name == ControllerName(kind, x.role)
    {
      if x != c {
        assert x in pool;
      }
    }
  }

  /** A pool as `create_replicas` builds it has the shape of a pool with no failover yet. */
  lemma CreatedShape(pool: seq<Controller>, kind: Subsystem, store: Store)
    requires |pool| == PoolSize && Distinct(pool)
    requires forall k :: 0 <= k < |pool| ==> NewController(pool[k], kind, RoleLabel(k), store)
    ensures PoolShape(pool, kind, store, 0)
  {
    assert Roles(pool) == InitialRoles(PoolSize);
  }

  class Middleware {
    /** The collection all controllers share. */
    const store: Store
    /** The three controller lists, head first. */
    var irrigationPool: seq<Controller>
    var coolingPool: seq<Controller>
    var lightingPool: seq<Controller>
    /** How many promotions each pool has gone through. */
    ghost var irrigationFailovers: nat
    ghost var coolingFailovers: nat
    ghost var lightingFailovers: nat

    function PoolOf(kind: Subsystem): seq<Controller>
      reads this
    {
      match kind
      case Irrigation => irrigationPool
      case Cooling => coolingPool
      case Lighting => lightingPool
    }

    ghost function FailoversOf(kind: Subsystem): nat
      reads this
    {
      match kind
      case Irrigation => irrigationFailovers
      case Cooling => coolingFailovers
      case Lighting => lightingFailovers
    }

    /** Every pool keeps its shape, with the roles its failover count predicts. */
    ghost predicate Valid()
      reads this
    {
      && PoolShape(PoolOf(Irrigation), Irrigation, store, FailoversOf(Irrigation))
      && PoolShape(PoolOf(Cooling), Cooling, store, FailoversOf(Cooling))
      && PoolShape(PoolOf(Lighting), Lighting, store, FailoversOf(Lighting))
    }

    /** Every pool has a head, of its own subsystem and on the shared store. */
    ghost predicate HeadsReady()
      reads this
    {
      && |PoolOf(Irrigation)| > 0 && PoolOf(Irrigation)[0].kind == Irrigation && PoolOf(Irrigation)[0].store == store
      && |PoolOf(Cooling)| > 0 && PoolOf(Cooling)[0].kind == Cooling && PoolOf(Cooling)[0].store == store
      && |PoolOf(Lighting)| > 0 && PoolOf(Lighting)[0].kind == Lighting && PoolOf(Lighting)[0].store == store
    }

    /** Start-up is over: each head runs as just started, and every standby is untouched. */
    ghost predicate Launched()
      reads this, PoolOf(Irrigation), PoolOf(Cooling), PoolOf(Lighting)
    {
      && PoolActivity(PoolOf(Irrigation)) && PoolActivity(PoolOf(Cooling)) && PoolActivity(PoolOf(Lighting))
      && RunningSinceStart(PoolOf(Irrigation)[0]) && RunningSinceStart(PoolOf(Cooling)[0])
      && RunningSinceStart(PoolOf(Lighting)[0])
      && AllPristine(PoolOf(Irrigation)[1..]) && AllPristine(PoolOf(Cooling)[1..])
      && AllPristine(PoolOf(Lighting)[1..])
    }

    /** Build the three pools of three, then start their heads. */
    constructor (store: Store, now: nat)
      requires store.online
      modifies store`records
      ensures this.store == store && Valid()
      ensures forall kind :: FailoversOf(kind) == 0
      ensures forall kind, c :: c in PoolOf(kind) ==> fresh(c)
      ensures RunningSinceStart(PoolOf(Irrigation)[0]) && RunningSinceStart(PoolOf(Cooling)[0])
      ensures RunningSinceStart(PoolOf(Lighting)[0])
      ensures PoolActivity(PoolOf(Irrigation)) && PoolActivity(PoolOf(Cooling)) && PoolActivity(PoolOf(Lighting))
      ensures AllPristine(PoolOf(Irrigation)[1..]) && AllPristine(PoolOf(Cooling)[1..])
      ensures AllPristine(PoolOf(Lighting)[1..])
      ensures store.records ==
                old(store.records)
                + [PoolOf(Irrigation)[0].Document(Command(On), now),
                   PoolOf(Cooling)[0].Document(Command(On), now),
                   PoolOf(Lighting)[0].Document(Command(On), now)]
    {
      var irrigation := CreatePool(Irrigation, store);
      var cooling := CreatePool(Cooling, store);
      var lighting := CreatePool(Lighting, store);
      this.store := store;
      irrigationPool, coolingPool, lightingPool := irrigation, cooling, lighting;
      irrigationFailovers, coolingFailovers, lightingFailovers := 0, 0, 0;
      new;
      forall kind ensures forall c :: c in PoolOf(kind) ==> fresh(c) {
        match kind
        case Irrigation =>
        case Cooling =>
        case Lighting =>
      }
      assert irrigation[0] in irrigation && cooling[0] in cooling && lighting[0] in lighting;
      HeadsNotStandbys(irrigation, cooling, lighting, store);
      assert ReadyToStart(irrigation, cooling, lighting);
      StartAllControllers(now);
    }

    /** Start each pool's head and switch its sensor and actuator on. */
    method StartAllControllers(now: nat)
      requires store.online && HeadsReady()
      modifies PoolOf(Irrigation)[0], PoolOf(Cooling)[0], PoolOf(Lighting)[0], store`records
      ensures StartedUp(PoolOf(Irrigation)[0]) && StartedUp(PoolOf(Cooling)[0]) && StartedUp(PoolOf(Lighting)[0])
      ensures old(ReadyToStart(PoolOf(Irrigation), PoolOf(Cooling), PoolOf(Lighting))) ==> Launched()
      ensures store.records ==
                old(store.records)
                + [PoolOf(Irrigation)[0].Document(Command(On), now),
                   PoolOf(Cooling)[0].Document(Command(On), now),
                   PoolOf(Lighting)[0].Document(Command(On), now)]
    {
      StartHeads(PoolOf(Irrigation)[0], PoolOf(Cooling)[0], PoolOf(Lighting)[0], now);
      if old(ReadyToStart(PoolOf(Irrigation), PoolOf(Cooling), PoolOf(Lighting))) {
        ActivityOfPristine(PoolOf(Irrigation));
        ActivityOfPristine(PoolOf(Cooling));
        ActivityOfPristine(PoolOf(Lighting));
      }
    }

    /** Append one new controller of `kind` with the default role. */
    method AddNewReplica(kind: Subsystem, pool: seq<Controller>) returns (pool': seq<Controller>)
      ensures |pool'| == |pool| + 1 && pool' == pool + [pool'[|pool|]]
      ensures fresh(pool'[|pool|]) && NewController(pool'[|pool|], kind, DefaultRole, store)
    {
      var c := new Controller(kind, DefaultRole, store);
      pool' := pool + [c];
    }

    /**
     * Promote the second member of `pool` to head. A pool of one (or none) is
     * left exactly as it is.
     */
    method ActivateNextController(pool: seq<Controller>, now: nat) returns (pool': seq<Controller>)
      requires |pool| > 1 ==> store.online
      requires Distinct(pool)
      requires forall c :: c in pool ==> c.store == store
      modifies pool, store`records
      ensures |pool| <= 1 ==> pool' == pool && unchanged(pool) && store.records == old(store.records)
      ensures |pool| > 1 ==> Promoted(pool, pool', store, now) && Distinct(pool')
    {
      if |pool| > 1 {
        var head := pool[0];
        head.Stop();
        var rest := pool[1..];
        var newPrimary := rest[0];
        assert head != newPrimary;
        assert forall i :: 2 <= i < |pool| ==> pool[i] != head && pool[i] != newPrimary;
        TakeOver(newPrimary, now);
        pool' := AddNewReplica(newPrimary.kind, rest);
        var c := pool'[|rest|];
        assert pool'[..|rest|] == rest;
        DistinctPromoted(pool, c);
      } else {
        pool' := pool;
      }
    }

    /**
     * `simulate_failover`: force the promotion of the pool's next replica. On
     * a pool that keeps the invariant, the promoted pool keeps it too, with
     * one more failover counted.
     */
    method SimulateFailover(pool: seq<Controller>, ghost kind: Subsystem, ghost failovers: nat, now: nat)
      returns (pool': seq<Controller>)
      requires store.online
      requires PoolShape(pool, kind, store, failovers)
      modifies pool, store`records
      ensures PoolShape(pool', kind, store, failovers + 1)
      ensures old(PoolActivity(pool)) ==> PoolActivity(pool')
    {
      assert |pool| == PoolSize;
      ghost var next, idle := pool[1], pool[2];
      assert next in pool;
      assert next.kind == kind;
      ghost var wasActive := PoolActivity(pool);
      pool' := ActivateNextController(pool, now);
      ShapePromoted(pool, pool', kind, store, failovers);
      if wasActive {
        assert pool'[0] == next && next.started;
        forall i | 1 <= i < |pool'|
          ensures !pool'[i].started && !pool'[i].sensorOn
        {
          if i == 1 {
            assert pool'[1] == idle && Untouched(idle);
          } else {
            assert pool'[i].Pristine();
          }
        }
      }
    }

    /**
     * The failover the facade asks for on the pool of `kind`: that pool is
     * promoted and the other two are left as they are.
     */
    method Failover(kind: Subsystem, now: nat)
      requires Valid() && store.online
      modifies this, PoolOf(kind), store`records
      ensures Valid()
      ensures FailoversOf(kind) == old(FailoversOf(kind)) + 1
      ensures old(PoolActivity(PoolOf(kind))) ==> PoolActivity(PoolOf(kind))
      ensures forall k :: k != kind ==> PoolOf(k) == old(PoolOf(k)) && FailoversOf(k) == old(FailoversOf(k))
    {
      ghost var irrigation, cooling, lighting := irrigationPool, coolingPool, lightingPool;
      ghost var irrigations, coolings, lightings := irrigationFailovers, coolingFailovers, lightingFailovers;
      var pool := SimulateFailover(PoolOf(kind), kind, FailoversOf(kind), now);
      ghost var active := PoolActivity(pool);
      match kind
      case Irrigation =>
        irrigationPool, irrigationFailovers := pool, irrigationFailovers + 1;
        assert active == PoolActivity(irrigationPool);
        assert coolingPool == cooling && coolingFailovers == coolings;
        assert lightingPool == lighting && lightingFailovers == lightings;
      case Cooling =>
        coolingPool, coolingFailovers := pool, coolingFailovers + 1;
        assert active == PoolActivity(coolingPool);
        assert irrigationPool == irrigation && irrigationFailovers == irrigations;
        assert lightingPool == lighting && lightingFailovers == lightings;
      case Lighting =>
        lightingPool, lightingFailovers := pool, lightingFailovers + 1;
        assert active == PoolActivity(lightingPool);
        assert irrigationPool == irrigation && irrigationFailovers == irrigations;
        assert coolingPool == cooling && coolingFailovers == coolings;
    }

    /**
     * The current readings of the three heads, each kept only when it passes
     * validation; an out-of-range reading is left out, not corrected.
     */
    method GetSensorData() returns (data: map<string, real>)
      requires |PoolOf(Irrigation)| > 0 && |PoolOf(Cooling)| > 0 && |PoolOf(Lighting)| > 0
      requires PoolOf(Irrigation)[0].sensorLast.Some? && PoolOf(Lighting)[0].sensorLast.Some? && PoolOf(Cooling)[0].sensorLast.Some?
      ensures forall t :: t in data ==> t in ValidationLimits && ValidateSensorData(t, data[t])
      ensures "soil_moisture" in data <==> ValidateSensorData("soil_moisture", PoolOf(Irrigation)[0].sensorLast.value)
      ensures "luminosity" in data <==> ValidateSensorData("luminosity", PoolOf(Lighting)[0].sensorLast.value)
      ensures "temperature" in data <==> ValidateSensorData("temperature", PoolOf(Cooling)[0].sensorLast.value)
      ensures "soil_moisture" in data ==> data["soil_moisture"] == PoolOf(Irrigation)[0].sensorLast.value
      ensures "luminosity" in data ==> data["luminosity"] == PoolOf(Lighting)[0].sensorLast.value
      ensures "temperature" in data ==> data["temperature"] == PoolOf(Cooling)[0].sensorLast.value
    {
      var readings := [
        ("soil_moisture", PoolOf(Irrigation)[0].sensorLast.value),
        ("luminosity", PoolOf(Lighting)[0].sensorLast.value),
        ("temperature", PoolOf(Cooling)[0].sensorLast.value)
      ];
      data := map[];
      var i := 0;
      while i < |readings|
        invariant 0 <= i <= |readings|
        invariant forall t :: t in data ==> t in ValidationLimits && ValidateSensorData(t, data[t])
        invariant forall j :: 0 <= j < |readings| ==>
                    (readings[j].0 in data <==> j < i && ValidateSensorData(readings[j].0, readings[j].1))
        invariant forall j :: 0 <= j < i && readings[j].0 in data ==> data[readings[j].0] == readings[j].1
      {
        var (sensorType, value) := readings[i];
        if ValidateSensorData(sensorType, value) {
          data := data[sensorType := value];
        }
        i := i + 1;
      }
      assert readings[0].0 == "soil_moisture" && readings[1].0 == "luminosity" && readings[2].0 == "temperature";
    }

    /** The heads' last commands, rendered with `str`: "None" while unset. */
    function GetActuatorData(): (data: map<string, string>)
      requires |PoolOf(Irrigation)| > 0 && |PoolOf(Cooling)| > 0 && |PoolOf(Lighting)| > 0
      reads this, PoolOf(Irrigation)[0], PoolOf(Cooling)[0], PoolOf(Lighting)[0]
      ensures data.Keys == {"irrigation", "lighting", "cooling"}
      ensures data["irrigation"] == Show(PoolOf(Irrigation)[0].actuatorLast)
      ensures data["lighting"] == Show(PoolOf(Lighting)[0].actuatorLast)
      ensures data["cooling"] == Show(PoolOf(Cooling)[0].actuatorLast)
    {
      map["irrigation" := Show(PoolOf(Irrigation)[0].actuatorLast),
          "lighting" := Show(PoolOf(Lighting)[0].actuatorLast),
          "cooling" := Show(PoolOf(Cooling)[0].actuatorLast)]
    }

    /** Forward a manual actuator action to the head of the pool the name selects. */
    method ControlActuators(actuatorType: string, action: string, now: nat)
      requires HeadsReady()
      requires PoolRoute(actuatorType).Some? && (action == "on" || action == "off") ==> store.online
      modifies PoolOf(Irrigation)[0], PoolOf(Cooling)[0], PoolOf(Lighting)[0], store`records
      ensures PoolRoute(actuatorType).None? ==>
                unchanged(PoolOf(Irrigation)[0], PoolOf(Cooling)[0], PoolOf(Lighting)[0]) && store.records == old(store.records)
      ensures forall kind :: PoolRoute(actuatorType) == Some(kind) ==>
                && ActuatorControlled(PoolOf(kind)[0], action, now)
                && PoolOf(kind)[0].sensorOn == old(PoolOf(kind)[0].sensorOn)
                && PoolOf(kind)[0].sensorLast == old(PoolOf(kind)[0].sensorLast)
                && PoolOf(kind)[0].started == old(PoolOf(kind)[0].started)
                && (forall k :: k != kind ==> unchanged(PoolOf(k)[0]))
    {
      var irrigation, cooling, lighting := PoolOf(Irrigation)[0], PoolOf(Cooling)[0], PoolOf(Lighting)[0];
      if actuatorType == "irrigation" {
        irrigation.ControlActuator(action, now);
      } else if actuatorType == "lighting" {
        lighting.ControlActuator(action, now);
      } else if actuatorType == "cooling" {
        cooling.ControlActuator(action, now);
      }
    }

    /** Forward a manual sensor action to the head of the pool the name selects. */
    method ControlSensors(sensorType: string, action: string)
      requires HeadsReady()
      modifies PoolOf(Irrigation)[0], PoolOf(Cooling)[0], PoolOf(Lighting)[0]
      ensures SensorRoute(sensorType).None? ==> unchanged(PoolOf(Irrigation)[0], PoolOf(Cooling)[0], PoolOf(Lighting)[0])
      ensures forall kind :: SensorRoute(sensorType) == Some(kind) ==>
                && PoolOf(kind)[0].sensorOn ==
                     (if action == "on" then true else if action == "off" then false
                      else old(PoolOf(kind)[0].sensorOn))
                && PoolOf(kind)[0].actuatorLast == old(PoolOf(kind)[0].actuatorLast)
                && PoolOf(kind)[0].outbox == old(PoolOf(kind)[0].outbox)
                && PoolOf(kind)[0].sensorLast == old(PoolOf(kind)[0].sensorLast)
                && PoolOf(kind)[0].started == old(PoolOf(kind)[0].started)
                && (forall k :: k != kind ==> unchanged(PoolOf(k)[0]))
    {
      if sensorType == "soil-moisture" {
        PoolOf(Irrigation)[0].ControlSensor(action);
      } else if sensorType == "lighting" {
        PoolOf(Lighting)[0].ControlSensor(action);
      } else if sensorType == "temperature" {
        PoolOf(Cooling)[0].ControlSensor(action);
      }
    }

    /** The head's sensor history (default limit) for a pool name; [] for any other name. */
    method GetHistoricalSensorData(controllerName: string) returns (entries: seq<HistoryEntry>)
      requires |PoolOf(Irrigation)| > 0 && |PoolOf(Cooling)| > 0 && |PoolOf(Lighting)| > 0
      ensures PoolRoute(controllerName).None? ==> entries == []
      ensures forall kind :: PoolRoute(controllerName) == Some(kind) ==>
                var head := PoolOf(kind)[0];
                var found := FindMany(head.store.records, head.name, Sensor, DefaultHistoryLimit);
                && (head.store.online ==>
                      && |entries| == |found|
                      && forall i :: 0 <= i < |entries| ==>
                           entries[i] == HistoryEntry(found[i].timestamp, found[i].entry.reading))
                && (!head.store.online ==> entries == [])
      ensures |entries| <= DefaultHistoryLimit
      ensures forall i, j :: 0 <= i < j < |entries| ==> entries[i].timestamp >= entries[j].timestamp
    {
      if controllerName == "irrigation" {
        entries := PoolOf(Irrigation)[0].GetHistoricalSensorData(DefaultHistoryLimit);
      } else if controllerName == "lighting" {
        entries := PoolOf(Lighting)[0].GetHistoricalSensorData(DefaultHistoryLimit);
      } else if controllerName == "cooling" {
        entries := PoolOf(Cooling)[0].GetHistoricalSensorData(DefaultHistoryLimit);
      } else {
        entries := [];
      }
    }

    /** Every pool member's name and role, in pool order, per pool name. */
    function GetControllersAndReplicas(): (info: map<string, seq<ControllerInfo>>)
      reads this
      ensures info.Keys == {"irrigation", "cooling", "lighting"}
      ensures forall kind :: var key := PoolName(kind);
                |info[key]| == |PoolOf(kind)|
                && forall i :: 0 <= i < |PoolOf(kind)| ==>
                     info[key][i] == ControllerInfo(PoolOf(kind)[i].name, PoolOf(kind)[i].role)
    {
      map["irrigation" := Infos(PoolOf(Irrigation)), "cooling" := Infos(PoolOf(Cooling)), "lighting" := Infos(PoolOf(Lighting))]
    }
  }

  /** `str()` of a last command. */
  function Show(command: Option<string>): string
  {
    match command
    case None => "None"
    case Some(c) => c
  }

  function Infos(pool: seq<Controller>): (info: seq<ControllerInfo>)
    ensures |info| == |pool|
    ensures forall i :: 0 <= i < |pool| ==> info[i] == ControllerInfo(pool[i].name, pool[i].role)
  {
    seq(|pool|, i requires 0 <= i < |pool| => ControllerInfo(pool[i].name, pool[i].role))
  }

  /** The key naming each pool in the facade's requests and replies. */
  function PoolName(kind: Subsystem): string
  {
    match kind
    case Irrigation => "irrigation"
    case Cooling => "cooling"
    case Lighting => "lighting"
  }

  /**
   * The pool that actuator control, history and failover requests select:
   * exactly "irrigation", "cooling" or "lighting".
   */
  function PoolRoute(name: string): (kind: Option<Subsystem>)
    ensures kind.Some? <==> name in {"irrigation", "cooling", "lighting"}
    ensures kind.Some? ==> PoolName(kind.value) == name
  {
    if name == "irrigation" then Some(Irrigation)
    else if name == "lighting" then Some(Lighting)
    else if name == "cooling" then Some(Cooling)
    else None
  }

  /**
   * The pool that sensor control requests select: "soil-moisture",
   * "temperature" or "lighting" (not "luminosity").
   */
  function SensorRoute(name: string): (kind: Option<Subsystem>)
    ensures kind == Some(Irrigation) <==> name == "soil-moisture"
    ensures kind == Some(Cooling) <==> name == "temperature"
    ensures kind == Some(Lighting) <==> name == "lighting"
  {
    if name == "soil-moisture" then Some(Irrigation)
    else if name == "lighting" then Some(Lighting)
    else if name == "temperature" then Some(Cooling)
    else None
  }

  /** The remote-call facade; only its failover request does its own routing. */
  class MiddlewareService {
    const middleware: Middleware

    constructor (middleware: Middleware)
      ensures this.middleware == middleware
    {
      this.middleware := middleware;
    }

    /** Promote the next controller of the named pool; any other name changes nothing. */
    method SimulateFailover(controllerType: string, now: nat)
      requires middleware.Valid()
      requires PoolRoute(controllerType).Some? ==> middleware.store.online
      modifies middleware, middleware.PoolOf(Irrigation), middleware.PoolOf(Cooling), middleware.PoolOf(Lighting)
      modifies middleware.store`records
      ensures middleware.Valid()
      ensures PoolRoute(controllerType).None? ==>
                && unchanged(middleware)
                && unchanged(middleware.PoolOf(Irrigation), middleware.PoolOf(Cooling), middleware.PoolOf(Lighting))
                && middleware.store.records == old(middleware.store.records)
      ensures forall kind :: PoolRoute(controllerType) == Some(kind) ==>
                && middleware.FailoversOf(kind) == old(middleware.FailoversOf(kind)) + 1
                && (old(PoolActivity(middleware.PoolOf(kind))) ==> PoolActivity(middleware.PoolOf(kind)))
                && forall k :: k != kind ==>
                     middleware.PoolOf(k) == old(middleware.PoolOf(k))
                     && middleware.FailoversOf(k) == old(middleware.FailoversOf(k))
                     && unchanged(middleware.PoolOf(k))
    {
      if controllerType == "irrigation" {
        middleware.Failover(Irrigation, now);
      } else if controllerType == "cooling" {
        middleware.Failover(Cooling, now);
      } else if controllerType == "lighting" {
        middleware.Failover(Lighting, now);
      }
    }
  }
}
