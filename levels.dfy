/**
 * The level catalogue and the module-unlock rule (`src/lib/levels/index.ts`).
 *
 * A level is a tagged variant: the base fields every module shares, plus the
 * configuration of its module. The literal level data is not part of this
 * model; the catalogue is a value with one sequence of levels per module.
 */
module Levels {
  import opened Wrappers
  import opened VectorMath

  datatype GameModule = Abstract | Drone | Bridge | Robotics

  datatype Wind = Wind(base: Vector3, variance: real, noiseFrequency: Option<real>)

  datatype Battery = Battery(maxCapacity: real, drainPerUnit: real)

  datatype Load = Load(position: Vector3, force: Vector3)

  datatype JointType = Revolute | Prismatic

  datatype Joint = Joint(kind: JointType, minAngle: real, maxAngle: real, length: real)

  /** The module-specific extension of a level configuration. */
  datatype ModuleConfig =
    | AbstractConfig
    | DroneConfig(wind: Wind, battery: Battery, deliveryTargets: seq<Vector3>)
    | BridgeConfig(loads: seq<Load>, materialIds: seq<string>, budget: real)
    | RoboticsConfig(joints: seq<Joint>, pickupTarget: Vector3, placeTarget: Vector3)

  datatype Level = Level(
    id: int,
    targetVector: Vector3,
    allowedVectors: nat,
    tolerance: real,
    maxAttempts: int,
    config: ModuleConfig)

  /** `LEVEL_REGISTRY`: the levels of each module, in play order. */
  datatype Catalog = Catalog(
    abstractLevels: seq<Level>,
    droneLevels: seq<Level>,
    bridgeLevels: seq<Level>,
    roboticsLevels: seq<Level>)

  /** `getLevelsForModule`. */
  function LevelsForModule(c: Catalog, m: GameModule): seq<Level> {
    match m
    case Abstract => c.abstractLevels
    case Drone => c.droneLevels
    case Bridge => c.bridgeLevels
    case Robotics => c.roboticsLevels
  }

  /** `getLevelCount`. */
  function LevelCount(c: Catalog, m: GameModule): nat {
    |LevelsForModule(c, m)|
  }

  /** `getLevel`: an index outside the module's list gives no level (`undefined`). */
  function GetLevel(c: Catalog, m: GameModule, index: int): (r: Option<Level>)
    ensures r.Some? <==> 0 <= index < LevelCount(c, m)
    ensures r.Some? ==> r.value == LevelsForModule(c, m)[index]
  {
    if 0 <= index < |LevelsForModule(c, m)| then Some(LevelsForModule(c, m)[index]) else None
  }

  /**
   * What the game relies on of the catalogue data: the legacy level list is
   * non-empty (the store starts on its first level), attempt budgets are not
   * negative, every drone level names a first delivery target (the drone
   * evaluator reads `deliveryTargets[0]`), tolerances are not negative, and
   * every joint's range contains the rest angle 0 that a level starts from.
   */
  predicate WellFormedLevel(l: Level) {
    && l.maxAttempts >= 0
    && l.tolerance >= 0.0
    && (l.config.DroneConfig? ==> |l.config.deliveryTargets| >= 1)
    && (l.config.RoboticsConfig? ==>
          forall j :: j in l.config.joints ==> j.minAngle <= 0.0 <= j.maxAngle)
  }

  predicate WellFormedCatalog(c: Catalog) {
    && |c.abstractLevels| >= 1
    && forall m: GameModule, l :: l in LevelsForModule(c, m) ==> WellFormedLevel(l)
  }

  /** `MODULE_UNLOCK_REQUIREMENTS`: the abstract unlock index each module needs. */
  function UnlockRequirement(m: GameModule): nat {
    match m
    case Abstract => 0
    case Drone => 5
    case Bridge => 10
    case Robotics => 15
  }

  /** `shouldModuleBeUnlocked(module, abstractLevelUnlocked)`. */
  predicate ShouldModuleBeUnlocked(m: GameModule, abstractUnlocked: int) {
    abstractUnlocked >= UnlockRequirement(m)
  }

  /** The abstract module is open at every reachable unlock index. */
  lemma AbstractAlwaysUnlocked(k: int)
    requires k >= 0
    ensures ShouldModuleBeUnlocked(Abstract, k)
  {
  }

  /** Once open, a module stays open as the abstract unlock index grows. */
  lemma UnlockMonotone(m: GameModule, k: int, k': int)
    requires k <= k'
    ensures ShouldModuleBeUnlocked(m, k) ==> ShouldModuleBeUnlocked(m, k')
  {
  }

  /** The thresholds are ordered, so robotics open implies bridge open implies drone open. */
  lemma UnlockChain(k: int)
    ensures UnlockRequirement(Drone) <= UnlockRequirement(Bridge) <= UnlockRequirement(Robotics)
    ensures ShouldModuleBeUnlocked(Robotics, k) ==> ShouldModuleBeUnlocked(Bridge, k)
    ensures ShouldModuleBeUnlocked(Bridge, k) ==> ShouldModuleBeUnlocked(Drone, k)
    ensures ShouldModuleBeUnlocked(Drone, k) ==> ShouldModuleBeUnlocked(Abstract, k)
  {
  }
}
