/**
 * The state of the game store as one value, the invariant every store action
 * keeps, and each action's effect as a function of the state before it.
 * The class `Session.GameSession` performs the actions field by field and is
 * proved to agree with these functions; the lemmas here state what the
 * actions promise.
 */
module SessionModel {
  import opened Wrappers
  import opened VectorMath
  import opened Levels
  import opened Kinematics
  import opened Evaluation
  import opened Progress

  /** A player vector: its generated id and its components. */
  datatype VectorData = VectorData(id: nat, components: Vector3)

  /** `moduleUnlocks`: which modules may be entered. */
  datatype ModuleUnlocks = ModuleUnlocks(abstractOpen: bool, droneOpen: bool, bridgeOpen: bool, roboticsOpen: bool) {
    predicate IsOpen(m: GameModule) {
      match m
      case Abstract => abstractOpen
      case Drone => droneOpen
      case Bridge => bridgeOpen
      case Robotics => roboticsOpen
    }
  }

  datatype DroneState = DroneState(
    currentWind: Vector3,
    batteryRemaining: real,
    deliveriesCompleted: int,
    trajectoryPreview: seq<Vector3>,
    isFlying: bool)

  /** `equilibriumError` starts at infinity, modelled as no value. */
  datatype BridgeState = BridgeState(
    currentLoads: seq<Load>,
    totalCost: real,
    equilibriumError: Option<real>,
    selectedMaterialId: Option<string>)

  datatype RoboticsState = RoboticsState(
    jointAngles: seq<real>,
    endEffectorPosition: Vector3,
    heldObject: bool,
    sequenceStep: int)

  /** Every field of the store that its actions read or write. */
  datatype SessionState = SessionState(
    activeModule: GameModule,
    moduleUnlocks: ModuleUnlocks,
    unlockedLevelIndex: int,
    starsPerLevel: map<nat, int>,
    careerProgress: CareerProgress,
    currentLevelIndex: nat,
    currentLevel: Level,
    vectors: seq<VectorData>,
    selectedVectorId: Option<nat>,
    attemptsDisplay: int,
    isGameWon: bool,
    isPlaying: bool,
    bestErrorThisLevel: Option<real>,
    droneState: Option<DroneState>,
    bridgeState: Option<BridgeState>,
    roboticsState: Option<RoboticsState>,
    nextId: nat)

  // ---------------------------------------------------------------------
  // Unlocks

  /** The values `checkModuleUnlocks` writes for an abstract unlock index `k`. */
  function UnlocksFor(k: int): (u: ModuleUnlocks)
    ensures u.IsOpen(Abstract)
    ensures forall m: GameModule :: m != Abstract ==> (u.IsOpen(m) <==> ShouldModuleBeUnlocked(m, k))
  {
    ModuleUnlocks(true, ShouldModuleBeUnlocked(Drone, k), ShouldModuleBeUnlocked(Bridge, k),
                  ShouldModuleBeUnlocked(Robotics, k))
  }

  /** The abstract module's unlock index, which gates the other modules. */
  function AbstractUnlocked(s: SessionState): int
    requires Complete(s.careerProgress.moduleProgress)
  {
    s.careerProgress.moduleProgress[Abstract].unlockedIndex
  }

  /** `moduleUnlocks` agrees with the career progress. */
  predicate UnlocksCurrent(s: SessionState) {
    Complete(s.careerProgress.moduleProgress) && s.moduleUnlocks == UnlocksFor(AbstractUnlocked(s))
  }

  // ---------------------------------------------------------------------
  // The invariant

  /** At most one module state is present, it belongs to the active module and to the level's kind. */
  predicate ModuleStateMatches(s: SessionState) {
    && (s.droneState.Some? ==> s.activeModule == Drone && s.currentLevel.config.DroneConfig?)
    && (s.bridgeState.Some? ==> s.activeModule == Bridge && s.currentLevel.config.BridgeConfig?)
    && (s.roboticsState.Some? ==>
          && s.activeModule == Robotics
          && s.currentLevel.config.RoboticsConfig?
          && WithinLimits(s.currentLevel.config.joints, s.roboticsState.value.jointAngles))
  }

  /** Vector ids are distinct and below the next id to be generated. */
  predicate IdsFresh(vs: seq<VectorData>, nextId: nat) {
    && (forall i :: 0 <= i < |vs| ==> vs[i].id < nextId)
    && (forall i, j :: 0 <= i < j < |vs| ==> vs[i].id != vs[j].id)
  }

  ghost predicate ProgressValid(s: SessionState) {
    var table := s.careerProgress.moduleProgress;
    && Complete(table)
    && (forall m: GameModule :: Consistent(table[m]))
    && s.careerProgress.totalStars == TotalStars(table)
    && s.unlockedLevelIndex == table[Abstract].unlockedIndex
    && s.starsPerLevel == table[Abstract].starsPerLevel
  }

  /** What every store action preserves. */
  ghost predicate ValidState(c: Catalog, s: SessionState) {
    && WellFormedCatalog(c)
    && WellFormedLevel(s.currentLevel)
    && ProgressValid(s)
    && s.attemptsDisplay >= 0
    && ModuleStateMatches(s)
    && IdsFresh(s.vectors, s.nextId)
  }

  /**
   * The invariant does not read the unlocks, the selection, the win and play
   * flags, the best error or the level index: a state that differs from a
   * valid one only there is valid.
   */
  lemma ValidIgnoresDisplayFields(c: Catalog, s: SessionState, t: SessionState)
    requires ValidState(c, s)
    requires t.(moduleUnlocks := s.moduleUnlocks, selectedVectorId := s.selectedVectorId, isGameWon := s.isGameWon,
                isPlaying := s.isPlaying, bestErrorThisLevel := s.bestErrorThisLevel,
                currentLevelIndex := s.currentLevelIndex) == s
    ensures ValidState(c, t)
  {
    assert ProgressValid(t);
  }

  /** The store before any action: the first abstract level, nothing playing, nothing earned. */
  function InitialState(c: Catalog): SessionState
    requires |c.abstractLevels| >= 1
  {
    SessionState(
      Abstract, ModuleUnlocks(true, false, false, false), 0, map[], InitialCareer(),
      0, c.abstractLevels[0], [], None, c.abstractLevels[0].maxAttempts, false, false, None,
      None, None, None, 0)
  }

  lemma InitialValid(c: Catalog)
    requires WellFormedCatalog(c)
    ensures ValidState(c, InitialState(c)) && UnlocksCurrent(InitialState(c))
  {
    assert c.abstractLevels[0] in LevelsForModule(c, Abstract);
    var table := InitialCareer().moduleProgress;
    forall m: GameModule
      ensures Consistent(table[m])
    {
      assert SumValues(map[]) == 0;
      match m
      case Abstract =>
      case Drone =>
      case Bridge =>
      case Robotics =>
    }
  }

  // ---------------------------------------------------------------------
  // loadLevel, nextLevel, resetLevel

  /** The components every new vector starts with. */
  const RestComponents: Vector3 := Vector3(0.0, 0.1, 0.0)

  /** `n` new vectors with ids `firstId`, `firstId + 1`, ... */
  function InitialVectors(firstId: nat, n: nat): (vs: seq<VectorData>)
    ensures |vs| == n
    ensures forall i :: 0 <= i < n ==> vs[i] == VectorData(firstId + i, RestComponents)
  {
    if n == 0 then [] else InitialVectors(firstId, n - 1) + [VectorData(firstId + n - 1, RestComponents)]
  }

  /** The drone state `loadLevel` creates: only for a drone level played in the drone module. */
  function InitialDrone(m: GameModule, level: Level): (r: Option<DroneState>)
    ensures r.Some? <==> m == Drone && level.config.DroneConfig?
    ensures r.Some? ==> r.value.currentWind == level.config.wind.base
    ensures r.Some? ==> r.value.batteryRemaining == level.config.battery.maxCapacity
  {
    if m == Drone && level.config.DroneConfig? then
      Some(DroneState(level.config.wind.base, level.config.battery.maxCapacity, 0, [], false))
    else None
  }

  /** `materials[0]?.id || null`: an empty first id also gives no selection. */
  function FirstMaterial(materialIds: seq<string>): Option<string> {
    if |materialIds| > 0 && materialIds[0] != "" then Some(materialIds[0]) else None
  }

  /** The bridge state `loadLevel` creates: only for a bridge level played in the bridge module. */
  function InitialBridge(m: GameModule, level: Level): (r: Option<BridgeState>)
    ensures r.Some? <==> m == Bridge && level.config.BridgeConfig?
    ensures r.Some? ==> r.value.currentLoads == level.config.loads
    ensures r.Some? ==> r.value.totalCost == 0.0 && r.value.equilibriumError.None?
  {
    if m == Bridge && level.config.BridgeConfig? then
      Some(BridgeState(level.config.loads, 0.0, None, FirstMaterial(level.config.materialIds)))
    else None
  }

  /** The robotics state `loadLevel` creates: every joint at rest angle 0. */
  function InitialRobotics(m: GameModule, level: Level): (r: Option<RoboticsState>)
    ensures r.Some? <==> m == Robotics && level.config.RoboticsConfig?
    ensures r.Some? ==> |r.value.jointAngles| == |level.config.joints|
    ensures r.Some? ==> forall i :: 0 <= i < |r.value.jointAngles| ==> r.value.jointAngles[i] == 0.0
    ensures r.Some? ==> r.value.sequenceStep == 0
  {
    if m == Robotics && level.config.RoboticsConfig? then
      Some(RoboticsState(seq(|level.config.joints|, _ => 0.0), Zero, false, 0))
    else None
  }

  /** `loadLevel(index)`: no level at `index` in the active module leaves everything as it was. */
  function Loaded(c: Catalog, s: SessionState, index: int): SessionState {
    match GetLevel(c, s.activeModule, index)
    case None => s
    case Some(level) =>
      var vs := InitialVectors(s.nextId, level.allowedVectors);
      s.(currentLevelIndex := index,
         currentLevel := level,
         vectors := vs,
         selectedVectorId := if |vs| > 0 then Some(vs[0].id) else None,
         attemptsDisplay := level.maxAttempts,
         isGameWon := false,
         isPlaying := true,
         bestErrorThisLevel := None,
         droneState := InitialDrone(s.activeModule, level),
         bridgeState := InitialBridge(s.activeModule, level),
         roboticsState := InitialRobotics(s.activeModule, level),
         nextId := s.nextId + level.allowedVectors)
  }

  /** Every angle at rest is within limits when each joint's range contains 0. */
  lemma RestAnglesWithinLimits(joints: seq<Joint>, angles: seq<real>)
    requires forall j :: j in joints ==> j.minAngle <= 0.0 <= j.maxAngle
    requires |angles| == |joints| && forall i :: 0 <= i < |angles| ==> angles[i] == 0.0
    ensures WithinLimits(joints, angles)
  {
    forall i | 0 <= i < |joints|
      ensures joints[i].minAngle <= angles[i] <= joints[i].maxAngle
    {
      assert joints[i] in joints;
    }
  }

  /**
   * `loadLevel` keeps the invariant. With a level at `index` it starts a fresh
   * attempt: the attempt budget is the level's, there is no best error yet,
   * the game is playing and not won, the new vectors all rest at (0, 0.1, 0)
   * under fresh ids, and a module state exists exactly for the active
   * module's own kind of level.
   */
  lemma LoadedValid(c: Catalog, s: SessionState, index: int)
    requires ValidState(c, s)
    ensures ValidState(c, Loaded(c, s, index))
    ensures GetLevel(c, s.activeModule, index).None? ==> Loaded(c, s, index) == s
    ensures GetLevel(c, s.activeModule, index).Some? ==>
      var level := GetLevel(c, s.activeModule, index).value;
      var s' := Loaded(c, s, index);
      && s'.currentLevelIndex == index && s'.currentLevel == level
      && s'.attemptsDisplay == level.maxAttempts
      && s'.bestErrorThisLevel.None? && !s'.isGameWon && s'.isPlaying
      && |s'.vectors| == level.allowedVectors
      && (forall i :: 0 <= i < |s'.vectors| ==> s'.vectors[i].components == RestComponents && s'.vectors[i].id >= s.nextId)
      && (s'.droneState.Some? || s'.bridgeState.Some? || s'.roboticsState.Some? <==>
            s.activeModule != Abstract && level.config.AbstractConfig? == false &&
            (s.activeModule == Drone <==> level.config.DroneConfig?) &&
            (s.activeModule == Bridge <==> level.config.BridgeConfig?))
  {
    var lookup := GetLevel(c, s.activeModule, index);
    if lookup.Some? {
      var level := lookup.value;
      assert level in LevelsForModule(c, s.activeModule);
      assert WellFormedLevel(level);
      var s' := Loaded(c, s, index);
      if s'.roboticsState.Some? {
        assert level.config.RoboticsConfig?;
        RestAnglesWithinLimits(level.config.joints, s'.roboticsState.value.jointAngles);
      }
    }
  }

  /** `nextLevel`: load the following level unless the current one is the module's last. */
  function Advanced(c: Catalog, s: SessionState): SessionState {
    if s.currentLevelIndex < LevelCount(c, s.activeModule) - 1 then Loaded(c, s, s.currentLevelIndex + 1) else s
  }

  /**
   * `nextLevel` moves to exactly the following catalogue entry when there is
   * one, and does nothing on the module's last level (or past its end).
   */
  lemma AdvancedSteps(c: Catalog, s: SessionState)
    ensures s.currentLevelIndex + 1 < LevelCount(c, s.activeModule) ==>
      && Advanced(c, s).currentLevelIndex == s.currentLevelIndex + 1
      && Advanced(c, s).currentLevel == LevelsForModule(c, s.activeModule)[s.currentLevelIndex + 1]
    ensures s.currentLevelIndex + 1 >= LevelCount(c, s.activeModule) ==> Advanced(c, s) == s
  {
  }

  /** `Components`: the components of each vector, in order. */
  function Components(vs: seq<VectorData>): (cs: seq<Vector3>)
    ensures |cs| == |vs| && forall i :: 0 <= i < |vs| ==> cs[i] == vs[i].components
  {
    seq(|vs|, i requires 0 <= i < |vs| => vs[i].components)
  }

  /**
   * `resetLevel` restarts the current level: doing it twice gives the same
   * state as doing it once, except that the second set of vectors has new ids.
   */
  lemma ResetRepeatable(c: Catalog, s: SessionState)
    ensures var once := Loaded(c, s, s.currentLevelIndex);
            var twice := Loaded(c, once, once.currentLevelIndex);
      && Components(twice.vectors) == Components(once.vectors)
      && twice.(vectors := once.vectors, selectedVectorId := once.selectedVectorId, nextId := once.nextId) == once
  {
    var once := Loaded(c, s, s.currentLevelIndex);
    var twice := Loaded(c, once, once.currentLevelIndex);
    assert Components(twice.vectors) == Components(once.vectors);
  }

  // ---------------------------------------------------------------------
  // setActiveModule

  /** The gate of `setActiveModule`, read from the unlocks as they were before they are refreshed. */
  predicate SwitchAccepted(s: SessionState, m: GameModule) {
    s.moduleUnlocks.IsOpen(m) || m == Abstract
  }

  /**
   * `setActiveModule(m)`: refresh the unlocks, then, if the gate accepted `m`,
   * enter it at index 0 with nothing playing and no module state. The current
   * level and the vectors are left as they were.
   */
  function Switched(s: SessionState, m: GameModule): SessionState
    requires Complete(s.careerProgress.moduleProgress)
  {
    var checked := s.(moduleUnlocks := UnlocksFor(AbstractUnlocked(s)));
    if !SwitchAccepted(s, m) then checked
    else checked.(activeModule := m, currentLevelIndex := 0, isPlaying := false, isGameWon := false,
                  droneState := None, bridgeState := None, roboticsState := None)
  }

  /**
   * With unlocks current, `setActiveModule` accepts exactly the abstract module
   * and the modules the abstract progress unlocks; an accepted switch keeps
   * the invariant and the refused one changes nothing but the unlocks.
   */
  lemma SwitchedGate(c: Catalog, s: SessionState, m: GameModule)
    requires ValidState(c, s)
    ensures UnlocksCurrent(s) ==> (SwitchAccepted(s, m) <==> m == Abstract || ShouldModuleBeUnlocked(m, AbstractUnlocked(s)))
    ensures ValidState(c, Switched(s, m)) && UnlocksCurrent(Switched(s, m))
    ensures SwitchAccepted(s, m) ==> Switched(s, m).activeModule == m && Switched(s, m).currentLevelIndex == 0
    ensures UnlocksCurrent(s) && !SwitchAccepted(s, m) ==> Switched(s, m) == s
  {
    assert ProgressValid(Switched(s, m));
  }

  /**
   * The gate reads the unlocks before refreshing them: with stale unlocks a
   * first switch to an already earned module is refused, and a second one,
   * after the refresh, is accepted.
   */
  lemma SwitchedStaleGate(s: SessionState)
    requires Complete(s.careerProgress.moduleProgress)
    requires AbstractUnlocked(s) == 5 && s.moduleUnlocks == ModuleUnlocks(true, false, false, false)
    ensures ShouldModuleBeUnlocked(Drone, AbstractUnlocked(s))
    ensures !SwitchAccepted(s, Drone) && Switched(s, Drone).activeModule == s.activeModule
    ensures SwitchAccepted(Switched(s, Drone), Drone)
    ensures Switched(Switched(s, Drone), Drone).activeModule == Drone
  {
  }

  // ---------------------------------------------------------------------
  // updateVector

  /** `vectors.map(v => v.id === id ? {...v, components} : v)`. */
  function Patched(vs: seq<VectorData>, id: nat, components: Vector3): (r: seq<VectorData>)
    ensures |r| == |vs|
    ensures forall i :: 0 <= i < |vs| ==> r[i].id == vs[i].id
  {
    seq(|vs|, i requires 0 <= i < |vs| => if vs[i].id == id then vs[i].(components := components) else vs[i])
  }

  /**
   * Patching changes the components of the vectors carrying `id` and nothing
   * else; the ids stay fresh and distinct, a later patch of the same id
   * overrides an earlier one, and patching with a vector's own components
   * changes nothing.
   */
  lemma PatchedEffect(vs: seq<VectorData>, id: nat, components: Vector3, nextId: nat)
    ensures forall i :: 0 <= i < |vs| ==>
      Patched(vs, id, components)[i].components == (if vs[i].id == id then components else vs[i].components)
    ensures IdsFresh(vs, nextId) ==> IdsFresh(Patched(vs, id, components), nextId)
    ensures forall other: Vector3 :: Patched(Patched(vs, id, other), id, components) == Patched(vs, id, components)
    ensures forall i :: 0 <= i < |vs| && vs[i].id == id && IdsFresh(vs, nextId) ==>
      Patched(vs, id, vs[i].components) == vs
  {
    forall other: Vector3
      ensures Patched(Patched(vs, id, other), id, components) == Patched(vs, id, components)
    {
    }
    forall i | 0 <= i < |vs| && vs[i].id == id && IdsFresh(vs, nextId)
      ensures Patched(vs, id, vs[i].components) == vs
    {
      assert forall j :: 0 <= j < |vs| && vs[j].id == id ==> j == i;
    }
  }

  // ---------------------------------------------------------------------
  // updateJointAngle

  /**
   * `updateJointAngle(i, angle)`: without a robotics state, without joints in
   * the level, or with no joint `i`, nothing changes; otherwise the clamped
   * angle is stored at `i` and the end effector is recomputed.
   */
  function JointMoved(cos: real -> real, sin: real -> real, s: SessionState, i: int, angle: real): SessionState
    requires ModuleStateMatches(s)
  {
    if s.roboticsState.None? || !s.currentLevel.config.RoboticsConfig? then s
    else
      var joints := s.currentLevel.config.joints;
      if !(0 <= i < |joints|) then s
      else
        var rs := s.roboticsState.value;
        var angles := rs.jointAngles[i := Clamp(angle, joints[i].minAngle, joints[i].maxAngle)];
        s.(roboticsState := Some(rs.(jointAngles := angles, endEffectorPosition := EndEffector(cos, sin, joints, angles))))
  }

  /**
   * Moving a joint keeps the invariant, so every stored angle stays within its
   * joint's limits; only angle `i` changes, it becomes the clamped request,
   * and the end effector is the arm's forward kinematics in the plane z = 0.
   */
  lemma JointMovedEffect(c: Catalog, cos: real -> real, sin: real -> real, s: SessionState, i: int, angle: real)
    requires ValidState(c, s)
    ensures ValidState(c, JointMoved(cos, sin, s, i, angle))
    ensures s.roboticsState.Some? && 0 <= i < |s.currentLevel.config.joints| ==>
      var joints := s.currentLevel.config.joints;
      var rs' := JointMoved(cos, sin, s, i, angle).roboticsState.value;
      && rs'.jointAngles[i] == Clamp(angle, joints[i].minAngle, joints[i].maxAngle)
      && joints[i].minAngle <= rs'.jointAngles[i] <= joints[i].maxAngle
      && (forall j :: 0 <= j < |joints| && j != i ==> rs'.jointAngles[j] == s.roboticsState.value.jointAngles[j])
      && rs'.endEffectorPosition == EndEffector(cos, sin, joints, rs'.jointAngles)
      && rs'.endEffectorPosition.z == 0.0
    ensures s.roboticsState.None? || !(0 <= i < |s.currentLevel.config.joints|) ==> JointMoved(cos, sin, s, i, angle) == s
  {
    if s.roboticsState.Some? {
      var joints := s.currentLevel.config.joints;
      if 0 <= i < |joints| {
        assert joints[i] in joints;
        ClampedWriteWithinLimits(joints, s.roboticsState.value.jointAngles, i, angle);
      }
    }
  }

  // ---------------------------------------------------------------------
  // unlockNextLevel

  /**
   * `unlockNextLevel(stars)`: award the active module's record for the
   * current level, recompute the career total over the four modules, mirror
   * the abstract module into the legacy fields, and refresh the unlocks.
   */
  ghost function Credited(s: SessionState, stars: int): SessionState
    requires Complete(s.careerProgress.moduleProgress)
  {
    var index := s.currentLevelIndex;
    var mp := Awarded(s.careerProgress.moduleProgress[s.activeModule], index, stars);
    var table := s.careerProgress.moduleProgress[s.activeModule := mp];
    var abstractActive := s.activeModule == Abstract;
    s.(unlockedLevelIndex := if abstractActive then Max(s.unlockedLevelIndex, index + 1) else s.unlockedLevelIndex,
       starsPerLevel := if abstractActive then s.starsPerLevel[index := Max(StarsAt(s.starsPerLevel, index), stars)]
                        else s.starsPerLevel,
       careerProgress := s.careerProgress.(totalStars := TotalStars(table), moduleProgress := table),
       moduleUnlocks := UnlocksFor(table[Abstract].unlockedIndex))
  }

  /** `unlockNextLevel` writes only the progress fields and the unlocks. */
  lemma CreditedFrame(s: SessionState, stars: int)
    requires Complete(s.careerProgress.moduleProgress)
    ensures var s' := Credited(s, stars);
      s' == s.(unlockedLevelIndex := s'.unlockedLevelIndex, starsPerLevel := s'.starsPerLevel,
               careerProgress := s'.careerProgress, moduleUnlocks := s'.moduleUnlocks)
  {
  }

  /**
   * Progress only grows: only the active module's record changes, it becomes
   * the awarded record, and every module's unlock index and per-level stars
   * are non-decreasing.
   */
  lemma CreditedTable(s: SessionState, stars: int)
    requires Complete(s.careerProgress.moduleProgress)
    ensures var table := s.careerProgress.moduleProgress;
      var table' := Credited(s, stars).careerProgress.moduleProgress;
      && Complete(table')
      && table'[s.activeModule] == Awarded(table[s.activeModule], s.currentLevelIndex, stars)
      && (forall m: GameModule :: m != s.activeModule ==> table'[m] == table[m])
      && (forall m: GameModule :: table'[m].unlockedIndex >= table[m].unlockedIndex)
      && (forall m: GameModule, k: nat :: StarsAt(table'[m].starsPerLevel, k) >= StarsAt(table[m].starsPerLevel, k))
  {
    AwardedMonotone(s.careerProgress.moduleProgress[s.activeModule], s.currentLevelIndex, stars);
  }

  /**
   * `unlockNextLevel` keeps the invariant: the career total is again the sum
   * over the four modules and does not fall, the legacy fields change only
   * in the abstract module and their index does not fall, and the unlocks are
   * current afterwards.
   */
  lemma CreditedValid(c: Catalog, s: SessionState, stars: int)
    requires ValidState(c, s)
    ensures var s' := Credited(s, stars);
      && ValidState(c, s') && UnlocksCurrent(s')
      && s'.careerProgress.totalStars == TotalStars(s'.careerProgress.moduleProgress)
      && s'.careerProgress.totalStars >= s.careerProgress.totalStars
      && (s.activeModule != Abstract ==> s'.unlockedLevelIndex == s.unlockedLevelIndex && s'.starsPerLevel == s.starsPerLevel)
      && s'.unlockedLevelIndex >= s.unlockedLevelIndex
  {
    var table := s.careerProgress.moduleProgress;
    var mp := table[s.activeModule];
    var mp' := Awarded(mp, s.currentLevelIndex, stars);
    AwardedTotals(mp, s.currentLevelIndex, stars);
    ReplaceEntryTotals(table, s.activeModule, mp');
    CreditedFrame(s, stars);
    var s' := Credited(s, stars);
    var table' := table[s.activeModule := mp'];
    assert s'.careerProgress.moduleProgress == table';
    forall m: GameModule
      ensures Consistent(table'[m])
    {
      if m != s.activeModule {
        assert table'[m] == table[m];
      }
    }
    assert ProgressValid(s');
  }

  // ---------------------------------------------------------------------
  // The submit evaluators

  /** The sum of the player vectors (thrust, support reactions). */
  function PlayerResultant(s: SessionState): Vector3 {
    SumVectors(Components(s.vectors))
  }

  function Forces(loads: seq<Load>): (fs: seq<Vector3>)
    ensures |fs| == |loads| && forall i :: 0 <= i < |loads| ==> fs[i] == loads[i].force
  {
    seq(|loads|, i requires 0 <= i < |loads| => loads[i].force)
  }

  /** The evaluator that runs: the active module's own when its state is present, the abstract one otherwise. */
  function Evaluator(s: SessionState): GameModule {
    match s.activeModule
    case Drone => if s.droneState.Some? && s.currentLevel.config.DroneConfig? then Drone else Abstract
    case Bridge => if s.bridgeState.Some? && s.currentLevel.config.BridgeConfig? then Bridge else Abstract
    case Robotics => if s.roboticsState.Some? && s.currentLevel.config.RoboticsConfig? then Robotics else Abstract
    case Abstract => Abstract
  }

  function ResultOf(errorVector: Vector3, e: real, flag: ModuleFlag, violation: bool, s: SessionState): SubmitResult {
    var v := Classify(e, s.currentLevel.tolerance, violation, s.bestErrorThisLevel);
    SubmitResult(v.success, errorVector, e, v.isNearMiss, flag)
  }

  /** `submitAbstractResult`: the player vectors' sum against the target vector, no violation possible. */
  function AbstractResult(sqrt: real -> real, s: SessionState): SubmitResult {
    var errorVector := Sub(s.currentLevel.targetVector, PlayerResultant(s));
    ResultOf(errorVector, Magnitude(sqrt, errorVector), NoFlag, false, s)
  }

  /** The battery a drone flight drains: the thrust magnitude times the drain per unit. */
  function BatteryUsed(sqrt: real -> real, s: SessionState): real
    requires s.currentLevel.config.DroneConfig?
  {
    Magnitude(sqrt, PlayerResultant(s)) * s.currentLevel.config.battery.drainPerUnit
  }

  /** `submitDroneResult`: thrust plus the current wind against the first delivery target. */
  function DroneResult(sqrt: real -> real, s: SessionState): SubmitResult
    requires s.droneState.Some? && s.currentLevel.config.DroneConfig?
    requires |s.currentLevel.config.deliveryTargets| >= 1
  {
    var effective := Add(PlayerResultant(s), s.droneState.value.currentWind);
    var errorVector := Sub(s.currentLevel.config.deliveryTargets[0], effective);
    var depleted := BatteryUsed(sqrt, s) > s.currentLevel.config.battery.maxCapacity;
    ResultOf(errorVector, Magnitude(sqrt, errorVector), BatteryDepleted(depleted), depleted, s)
  }

  /** `submitBridgeResult`: support reactions plus loads should cancel; the net force is the error. */
  function BridgeResult(sqrt: real -> real, s: SessionState): SubmitResult
    requires s.bridgeState.Some? && s.currentLevel.config.BridgeConfig?
  {
    var netForce := Add(PlayerResultant(s), SumVectors(Forces(s.currentLevel.config.loads)));
    var exceeded := s.bridgeState.value.totalCost > s.currentLevel.config.budget;
    ResultOf(netForce, Magnitude(sqrt, netForce), BudgetExceeded(exceeded), exceeded, s)
  }

  /** The target of the robotics evaluator: pick-up at sequence step 0, placement afterwards. */
  function RoboticsTarget(level: Level, step: int): Vector3
    requires level.config.RoboticsConfig?
  {
    if step == 0 then level.config.pickupTarget else level.config.placeTarget
  }

  /** `submitRoboticsResult`: the stored end effector against the current target, with the joint-limit scan. */
  function RoboticsResult(sqrt: real -> real, s: SessionState): SubmitResult
    requires s.roboticsState.Some? && s.currentLevel.config.RoboticsConfig?
  {
    var rs := s.roboticsState.value;
    var errorVector := Sub(RoboticsTarget(s.currentLevel, rs.sequenceStep), rs.endEffectorPosition);
    var violation := JointViolation(s.currentLevel.config.joints, rs.jointAngles);
    ResultOf(errorVector, Magnitude(sqrt, errorVector), JointLimitViolation(violation), violation, s)
  }

  /** `submitResult`: the result of whichever evaluator runs. */
  function Outcome(sqrt: real -> real, s: SessionState): SubmitResult
    requires WellFormedLevel(s.currentLevel)
  {
    match Evaluator(s)
    case Drone => DroneResult(sqrt, s)
    case Bridge => BridgeResult(sqrt, s)
    case Robotics => RoboticsResult(sqrt, s)
    case Abstract => AbstractResult(sqrt, s)
  }

  predicate Violation(flag: ModuleFlag) {
    match flag
    case NoFlag => false
    case BatteryDepleted(d) => d
    case BudgetExceeded(x) => x
    case JointLimitViolation(v) => v
  }

  /**
   * The bookkeeping after a result: the best error becomes the smaller of
   * the old best and this error; a success credits three stars, wins and
   * stops play; a failure spends an attempt, never going below zero.
   */
  ghost function Recorded(s: SessionState, r: SubmitResult): SessionState
    requires Complete(s.careerProgress.moduleProgress)
  {
    var s1 := s.(bestErrorThisLevel := Some(BestAfter(s.bestErrorThisLevel, r.magnitudeError)));
    if r.success then Credited(s1, 3).(isGameWon := true, isPlaying := false)
    else s1.(attemptsDisplay := Max(0, s1.attemptsDisplay - 1))
  }

  /** The module state a submit writes: the drone's remaining battery, the bridge's equilibrium error. */
  function Measured(sqrt: real -> real, s: SessionState, r: SubmitResult): SessionState {
    match Evaluator(s)
    case Drone =>
      s.(droneState := Some(s.droneState.value.(
           batteryRemaining := s.currentLevel.config.battery.maxCapacity - BatteryUsed(sqrt, s))))
    case Bridge => s.(bridgeState := Some(s.bridgeState.value.(equilibriumError := Some(r.magnitudeError))))
    case _ => s
  }

  /** The store after `submitResult`. */
  ghost function AfterSubmit(sqrt: real -> real, s: SessionState): SessionState
    requires WellFormedLevel(s.currentLevel) && Complete(s.careerProgress.moduleProgress)
  {
    var r := Outcome(sqrt, s);
    Recorded(Measured(sqrt, s, r), r)
  }

  /**
   * The verdict of every evaluator: success exactly when the error is within
   * tolerance and there is no module violation; a near miss only for a
   * failure without violation that is within 1.5 tolerances or improves
   * enough on the level's best so far.
   */
  lemma OutcomeVerdict(sqrt: real -> real, s: SessionState)
    requires WellFormedLevel(s.currentLevel)
    ensures var r := Outcome(sqrt, s);
      && (r.success <==> r.magnitudeError <= s.currentLevel.tolerance && !Violation(r.flag))
      && (r.isNearMiss ==> !r.success && !Violation(r.flag))
      && (!r.success && !Violation(r.flag) ==>
            (r.isNearMiss <==> r.magnitudeError <= s.currentLevel.tolerance * 1.5
                               || ImprovedEnough(s.bestErrorThisLevel, r.magnitudeError)))
      && r.magnitudeError == Magnitude(sqrt, r.errorVector)
  {
  }

  /** Recording a result leaves the level, the vectors and the module states as they were. */
  lemma RecordedFrame(s: SessionState, r: SubmitResult)
    requires Complete(s.careerProgress.moduleProgress)
    ensures var s' := Recorded(s, r);
      && s'.activeModule == s.activeModule && s'.currentLevel == s.currentLevel
      && s'.currentLevelIndex == s.currentLevelIndex && s'.vectors == s.vectors
      && s'.droneState == s.droneState && s'.bridgeState == s.bridgeState && s'.roboticsState == s.roboticsState
  {
    var s1 := s.(bestErrorThisLevel := Some(BestAfter(s.bestErrorThisLevel, r.magnitudeError)));
    CreditedFrame(s1, 3);
  }

  /**
   * Recording a result keeps the invariant: the best error becomes the
   * smaller of the old best and this error; a failure spends one attempt
   * (never going below zero) and changes nothing else; a success credits
   * three stars, wins and stops play.
   */
  lemma RecordedEffect(c: Catalog, s: SessionState, r: SubmitResult)
    requires ValidState(c, s)
    ensures var s' := Recorded(s, r);
      && ValidState(c, s')
      && s'.bestErrorThisLevel == Some(BestAfter(s.bestErrorThisLevel, r.magnitudeError))
      && (!r.success ==> s' == s.(bestErrorThisLevel := s'.bestErrorThisLevel, attemptsDisplay := Max(0, s.attemptsDisplay - 1)))
      && (r.success ==> s' == Credited(s, 3).(bestErrorThisLevel := s'.bestErrorThisLevel, isGameWon := true, isPlaying := false))
  {
    var s1 := s.(bestErrorThisLevel := Some(BestAfter(s.bestErrorThisLevel, r.magnitudeError)));
    ValidIgnoresDisplayFields(c, s, s1);
    var s' := Recorded(s, r);
    if r.success {
      CreditedValid(c, s1, 3);
      CreditedFrame(s1, 3);
      CreditedFrame(s, 3);
      ValidIgnoresDisplayFields(c, Credited(s1, 3), s');
    } else {
      assert s' == s1.(attemptsDisplay := Max(0, s.attemptsDisplay - 1));
      assert ProgressValid(s');
    }
  }

  /** Writing the drone's battery or the bridge's equilibrium error keeps the invariant and nothing else changes. */
  lemma MeasuredValid(c: Catalog, sqrt: real -> real, s: SessionState, r: SubmitResult)
    requires ValidState(c, s)
    ensures ValidState(c, Measured(sqrt, s, r))
    ensures Measured(sqrt, s, r).(droneState := s.droneState, bridgeState := s.bridgeState) == s
  {
    var s' := Measured(sqrt, s, r);
    match Evaluator(s)
    case Drone =>
      var ds := s.droneState.value.(batteryRemaining := s.currentLevel.config.battery.maxCapacity - BatteryUsed(sqrt, s));
      assert s' == s.(droneState := Some(ds));
      assert ProgressValid(s');
    case Bridge =>
      var bs := s.bridgeState.value.(equilibriumError := Some(r.magnitudeError));
      assert s' == s.(bridgeState := Some(bs));
      assert ProgressValid(s');
    case _ =>
  }

  /**
   * The bookkeeping of every submit: the best error becomes the smaller of the
   * old best and this error; a failure spends one attempt (not below zero) and leaves
   * the win flag and the career as they were; a success leaves the attempts,
   * wins, stops play and credits three stars; the invariant is kept.
   */
  lemma AfterSubmitBookkeeping(c: Catalog, sqrt: real -> real, s: SessionState)
    requires ValidState(c, s)
    ensures var r := Outcome(sqrt, s);
      var s' := AfterSubmit(sqrt, s);
      && ValidState(c, s')
      && s'.bestErrorThisLevel == Some(BestAfter(s.bestErrorThisLevel, r.magnitudeError))
      && s'.bestErrorThisLevel.value <= r.magnitudeError
      && (s.bestErrorThisLevel.Some? ==> s'.bestErrorThisLevel.value <= s.bestErrorThisLevel.value)
      && (!r.success ==>
            && s'.attemptsDisplay == Max(0, s.attemptsDisplay - 1)
            && s'.isGameWon == s.isGameWon && s'.isPlaying == s.isPlaying
            && s'.careerProgress == s.careerProgress)
      && (r.success ==>
            && s'.attemptsDisplay == s.attemptsDisplay
            && s'.isGameWon && !s'.isPlaying
            && s'.careerProgress == Credited(s, 3).careerProgress)
      && s'.activeModule == s.activeModule && s'.currentLevel == s.currentLevel
      && s'.currentLevelIndex == s.currentLevelIndex && s'.vectors == s.vectors
  {
    var r := Outcome(sqrt, s);
    var s0 := Measured(sqrt, s, r);
    MeasuredValid(c, sqrt, s, r);
    RecordedEffect(c, s0, r);
    RecordedFrame(s0, r);
    if r.success {
      CreditedFrame(s0, 3);
      CreditedFrame(s, 3);
    }
  }

  /**
   * The drone evaluator measures thrust plus wind against the first delivery
   * target, flags a depleted battery when the drain exceeds the capacity, and
   * writes the remaining battery whatever the outcome.
   */
  lemma DroneSubmit(sqrt: real -> real, s: SessionState)
    requires WellFormedLevel(s.currentLevel) && Complete(s.careerProgress.moduleProgress)
    requires Evaluator(s) == Drone
    ensures var r := Outcome(sqrt, s);
      var level := s.currentLevel;
      && r.errorVector == Sub(level.config.deliveryTargets[0], Add(PlayerResultant(s), s.droneState.value.currentWind))
      && r.flag == BatteryDepleted(Magnitude(sqrt, PlayerResultant(s)) * level.config.battery.drainPerUnit > level.config.battery.maxCapacity)
      && AfterSubmit(sqrt, s).droneState.Some?
      && AfterSubmit(sqrt, s).droneState.value.batteryRemaining ==
           level.config.battery.maxCapacity - Magnitude(sqrt, PlayerResultant(s)) * level.config.battery.drainPerUnit
  {
    var r := Outcome(sqrt, s);
    RecordedFrame(Measured(sqrt, s, r), r);
  }

  /**
   * The bridge evaluator's error vector is the net force, supports plus
   * loads, so the target is the zero vector; the budget flag compares the
   * total cost with the budget; the equilibrium error is stored.
   */
  lemma BridgeSubmit(sqrt: real -> real, s: SessionState)
    requires WellFormedLevel(s.currentLevel) && Complete(s.careerProgress.moduleProgress)
    requires Evaluator(s) == Bridge
    ensures var r := Outcome(sqrt, s);
      && r.errorVector == Add(PlayerResultant(s), SumVectors(Forces(s.currentLevel.config.loads)))
      && r.flag == BudgetExceeded(s.bridgeState.value.totalCost > s.currentLevel.config.budget)
      && AfterSubmit(sqrt, s).bridgeState == Some(s.bridgeState.value.(equilibriumError := Some(r.magnitudeError)))
  {
    var r := Outcome(sqrt, s);
    assert r == BridgeResult(sqrt, s);
    var bs := s.bridgeState.value.(equilibriumError := Some(r.magnitudeError));
    var s0 := s.(bridgeState := Some(bs));
    assert Measured(sqrt, s, r) == s0;
    RecordedFrame(s0, r);
    assert AfterSubmit(sqrt, s) == Recorded(s0, r);
  }

  /**
   * The robotics evaluator aims at the pick-up target at sequence step 0 and
   * at the placement target otherwise, and in a valid session it never
   * reports a joint-limit violation, because stored angles are always clamped.
   */
  lemma RoboticsSubmit(c: Catalog, sqrt: real -> real, s: SessionState)
    requires ValidState(c, s)
    requires Evaluator(s) == Robotics
    ensures var r := Outcome(sqrt, s);
      var rs := s.roboticsState.value;
      && r.errorVector == Sub(if rs.sequenceStep == 0 then s.currentLevel.config.pickupTarget
                              else s.currentLevel.config.placeTarget, rs.endEffectorPosition)
      && r.flag == JointLimitViolation(false)
      && (r.success <==> r.magnitudeError <= s.currentLevel.tolerance)
  {
    WithinLimitsNoViolation(s.currentLevel.config.joints, s.roboticsState.value.jointAngles);
  }

  /**
   * When the platform square root returns true roots, every evaluator's
   * verdict can be read off squared lengths: success is a squared error
   * within the squared tolerance, and the near-miss margin is 2.25 squared
   * tolerances.
   */
  lemma OutcomeBySquares(sqrt: real -> real, s: SessionState)
    requires WellFormedLevel(s.currentLevel)
    requires forall x: real :: x >= 0.0 ==> IsRootOf(sqrt(x), x)
    requires s.bestErrorThisLevel.Some? ==> s.bestErrorThisLevel.value >= 0.0
    ensures var r := Outcome(sqrt, s);
      r.success == ClassifySquared(NormSq(r.errorVector), s.currentLevel.tolerance, Violation(r.flag),
                                   Squared(s.bestErrorThisLevel)).success
    ensures var r := Outcome(sqrt, s);
      r.isNearMiss == ClassifySquared(NormSq(r.errorVector), s.currentLevel.tolerance, Violation(r.flag),
                                      Squared(s.bestErrorThisLevel)).isNearMiss
  {
    var r := Outcome(sqrt, s);
    NormSqNonNegative(r.errorVector);
    ClassifyBySquares(r.magnitudeError, NormSq(r.errorVector), s.currentLevel.tolerance, Violation(r.flag),
                      s.bestErrorThisLevel);
  }

  /**
   * An abstract level with target (5, 0, 0) and tolerance 0.5: a single
   * vector (5.2, 0, 0) misses by 0.2 and succeeds.
   */
  lemma AbstractSubmitExample(sqrt: real -> real, s: SessionState)
    requires sqrt(0.04) == 0.2
    requires s.activeModule == Abstract && WellFormedLevel(s.currentLevel)
    requires Components(s.vectors) == [Vector3(5.2, 0.0, 0.0)]
    requires s.currentLevel.targetVector == Vector3(5.0, 0.0, 0.0) && s.currentLevel.tolerance == 0.5
    ensures Outcome(sqrt, s).errorVector == Vector3(-0.2, 0.0, 0.0)
    ensures Outcome(sqrt, s).magnitudeError == 0.2
    ensures Outcome(sqrt, s).success && !Outcome(sqrt, s).isNearMiss
  {
    SumVectorsSingle(Vector3(5.2, 0.0, 0.0));
    OutcomeVerdict(sqrt, s);
  }

  /**
   * A drone level with battery capacity 40 and drain 6 per unit: a thrust of
   * length 8 drains 48, so the battery is depleted, the submit fails without
   * a near miss, and the remaining battery written back is -8.
   */
  lemma DroneSubmitExample(sqrt: real -> real, s: SessionState)
    requires sqrt(64.0) == 8.0
    requires WellFormedLevel(s.currentLevel) && Complete(s.careerProgress.moduleProgress)
    requires s.activeModule == Drone && s.droneState.Some? && s.currentLevel.config.DroneConfig?
    requires s.currentLevel.config.battery == Battery(40.0, 6.0)
    requires Components(s.vectors) == [Vector3(8.0, 0.0, 0.0)]
    ensures Outcome(sqrt, s).flag == BatteryDepleted(true)
    ensures !Outcome(sqrt, s).success && !Outcome(sqrt, s).isNearMiss
    ensures AfterSubmit(sqrt, s).droneState.value.batteryRemaining == -8.0
  {
    SumVectorsSingle(Vector3(8.0, 0.0, 0.0));
    DroneSubmit(sqrt, s);
    OutcomeVerdict(sqrt, s);
  }

  /**
   * A bridge level with one load of (0, -10, 0) within budget: a single
   * support reaction of (0, 10, 0) balances it exactly, so the net force is
   * zero, the equilibrium error is 0 and the submit succeeds.
   */
  lemma BridgeSubmitExample(sqrt: real -> real, s: SessionState)
    requires sqrt(0.0) == 0.0
    requires WellFormedLevel(s.currentLevel) && Complete(s.careerProgress.moduleProgress)
    requires s.activeModule == Bridge && s.bridgeState.Some? && s.currentLevel.config.BridgeConfig?
    requires |s.currentLevel.config.loads| == 1 && s.currentLevel.config.loads[0].force == Vector3(0.0, -10.0, 0.0)
    requires s.bridgeState.value.totalCost <= s.currentLevel.config.budget
    requires Components(s.vectors) == [Vector3(0.0, 10.0, 0.0)]
    ensures Outcome(sqrt, s).errorVector == Vector3(0.0, 0.0, 0.0)
    ensures Outcome(sqrt, s).magnitudeError == 0.0 && Outcome(sqrt, s).success
    ensures AfterSubmit(sqrt, s).bridgeState.value.equilibriumError == Some(0.0)
  {
    SumVectorsSingle(Vector3(0.0, 10.0, 0.0));
    SumVectorsSingle(Vector3(0.0, -10.0, 0.0));
    assert Forces(s.currentLevel.config.loads) == [Vector3(0.0, -10.0, 0.0)];
    BridgeSubmit(sqrt, s);
    OutcomeVerdict(sqrt, s);
  }

  // ---------------------------------------------------------------------
  // simulateWind

  /** `simulateWind` at wall-clock time `nowMs`: only a drone session on a drone level changes. */
  function WindBlown(sin: real -> real, s: SessionState, nowMs: real): SessionState {
    if s.droneState.None? || !s.currentLevel.config.DroneConfig? then s
    else s.(droneState := Some(s.droneState.value.(currentWind := WindAt(sin, s.currentLevel.config.wind, nowMs))))
  }

  /** Wind keeps the invariant, and without variance the wind stays at the level's base wind. */
  lemma WindBlownEffect(c: Catalog, sin: real -> real, s: SessionState, nowMs: real)
    requires ValidState(c, s)
    ensures ValidState(c, WindBlown(sin, s, nowMs))
    ensures s.droneState.Some? && s.currentLevel.config.wind.variance == 0.0 ==>
      WindBlown(sin, s, nowMs).droneState.value.currentWind == s.currentLevel.config.wind.base
    ensures s.droneState.None? ==> WindBlown(sin, s, nowMs) == s
  {
    if s.droneState.Some? && s.currentLevel.config.wind.variance == 0.0 {
      CalmWindIsBase(sin, s.currentLevel.config.wind, nowMs);
    }
  }
}
