/**
 * The game store as an object. The store keeps its whole state as one
 * record, and each action replaces it with a copy in which the fields the
 * action sets are overwritten (a `set({...})` merge); here that record is
 * the field `state` and each merge is a datatype update of it.
 *
 * Every method is proved to leave the state that the corresponding function
 * of `SessionModel` describes, and to keep the invariant `Valid`. The
 * platform's square root, cosine and sine and the level catalogue are fixed
 * when the session is created.
 */
module Session {
  import opened Wrappers
  import opened VectorMath
  import opened Levels
  import opened Kinematics
  import opened Evaluation
  import opened Progress
  import opened SessionModel

  class GameSession {
    const catalog: Catalog
    const sqrt: real -> real
    const cos: real -> real
    const sin: real -> real

    var state: SessionState

    ghost predicate Valid()
      reads this
    {
      ValidState(catalog, state)
    }

    /** The store's initial state. */
    constructor (catalog: Catalog, sqrt: real -> real, cos: real -> real, sin: real -> real)
      requires WellFormedCatalog(catalog)
      ensures this.catalog == catalog && this.sqrt == sqrt && this.cos == cos && this.sin == sin
      ensures state == InitialState(catalog)
      ensures Valid() && UnlocksCurrent(state)
    {
      this.catalog := catalog;
      this.sqrt := sqrt;
      this.cos := cos;
      this.sin := sin;
      var firstLevel := catalog.abstractLevels[0];
      state := SessionState(
        Abstract, ModuleUnlocks(true, false, false, false), 0, map[], InitialCareer(),
        0, firstLevel, [], None, firstLevel.maxAttempts, false, false, None,
        None, None, None, 0);
      new;
      InitialValid(catalog);
    }

    /** `checkModuleUnlocks`: recompute the unlocks from the abstract module's unlock index. */
    method CheckModuleUnlocks()
      requires Valid()
      modifies this
      ensures state == old(state).(moduleUnlocks := UnlocksFor(AbstractUnlocked(old(state))))
      ensures Valid() && UnlocksCurrent(state)
    {
      ghost var s := state;
      var abstractUnlocked := state.careerProgress.moduleProgress[Abstract].unlockedIndex;
      state := state.(moduleUnlocks := ModuleUnlocks(true,
                                                     ShouldModuleBeUnlocked(Drone, abstractUnlocked),
                                                     ShouldModuleBeUnlocked(Bridge, abstractUnlocked),
                                                     ShouldModuleBeUnlocked(Robotics, abstractUnlocked)));
      ValidIgnoresDisplayFields(catalog, s, state);
    }

    /** `setActiveModule`: gated on the unlocks read before they are refreshed. */
    method SetActiveModule(m: GameModule)
      requires Valid()
      modifies this
      ensures state == Switched(old(state), m)
      ensures Valid() && UnlocksCurrent(state)
    {
      ghost var s := state;
      SwitchedGate(catalog, s, m);
      var snapshot := state.moduleUnlocks;
      CheckModuleUnlocks();
      if !snapshot.IsOpen(m) && m != Abstract {
        return;
      }
      state := state.(activeModule := m, currentLevelIndex := 0, isPlaying := false, isGameWon := false,
                      droneState := None, bridgeState := None, roboticsState := None);
    }

    /** `loadLevel(index)`. */
    method LoadLevel(index: int)
      requires Valid()
      modifies this
      ensures state == Loaded(catalog, old(state), index)
      ensures Valid()
    {
      LoadedValid(catalog, state, index);
      var lookup := GetLevel(catalog, state.activeModule, index);
      if lookup.None? {
        return;
      }
      var level := lookup.value;
      var initialVectors := InitialVectors(state.nextId, level.allowedVectors);
      state := state.(
        currentLevelIndex := index,
        currentLevel := level,
        vectors := initialVectors,
        selectedVectorId := if |initialVectors| > 0 then Some(initialVectors[0].id) else None,
        attemptsDisplay := level.maxAttempts,
        isGameWon := false,
        isPlaying := true,
        bestErrorThisLevel := None,
        droneState := InitialDrone(state.activeModule, level),
        bridgeState := InitialBridge(state.activeModule, level),
        roboticsState := InitialRobotics(state.activeModule, level),
        nextId := state.nextId + level.allowedVectors);
    }

    /** `nextLevel`. */
    method NextLevel()
      requires Valid()
      modifies this
      ensures state == Advanced(catalog, old(state))
      ensures Valid()
    {
      var levels := LevelsForModule(catalog, state.activeModule);
      if state.currentLevelIndex < |levels| - 1 {
        LoadLevel(state.currentLevelIndex + 1);
      }
    }

    /** `resetLevel`. */
    method ResetLevel()
      requires Valid()
      modifies this
      ensures state == Loaded(catalog, old(state), old(state).currentLevelIndex)
      ensures Valid()
    {
      LoadLevel(state.currentLevelIndex);
    }

    /** `selectVector(id)`. */
    method SelectVector(id: Option<nat>)
      requires Valid()
      modifies this
      ensures state == old(state).(selectedVectorId := id)
      ensures Valid()
    {
      ghost var s := state;
      state := state.(selectedVectorId := id);
      ValidIgnoresDisplayFields(catalog, s, state);
    }

    /** `updateVector(id, { components })`. */
    method UpdateVector(id: nat, components: Vector3)
      requires Valid()
      modifies this
      ensures state == old(state).(vectors := Patched(old(state).vectors, id, components))
      ensures Valid()
    {
      PatchedEffect(state.vectors, id, components, state.nextId);
      state := state.(vectors := Patched(state.vectors, id, components));
      assert ProgressValid(state);
    }

    /** `updateJointAngle(jointIndex, angle)`: clamp, store, and rerun the forward kinematics. */
    method UpdateJointAngle(jointIndex: int, angle: real)
      requires Valid()
      modifies this
      ensures state == JointMoved(cos, sin, old(state), jointIndex, angle)
      ensures Valid()
    {
      JointMovedEffect(catalog, cos, sin, state, jointIndex, angle);
      if state.roboticsState.None? || !state.currentLevel.config.RoboticsConfig? {
        return;
      }
      var joints := state.currentLevel.config.joints;
      if !(0 <= jointIndex < |joints|) {
        return;
      }
      var joint := joints[jointIndex];
      var clampedAngle := Clamp(angle, joint.minAngle, joint.maxAngle);
      var rs := state.roboticsState.value;
      var newAngles := rs.jointAngles[jointIndex := clampedAngle];
      var position := ForwardKinematics(cos, sin, joints, newAngles);
      state := state.(roboticsState := Some(rs.(jointAngles := newAngles, endEffectorPosition := position)));
    }

    /** `unlockNextLevel(stars)`. */
    method UnlockNextLevel(stars: int)
      requires Valid()
      modifies this
      ensures state == Credited(old(state), stars)
      ensures Valid() && UnlocksCurrent(state)
    {
      ghost var s := state;
      CreditedValid(catalog, s, stars);
      CreditedFrame(s, stars);
      var index := state.currentLevelIndex;
      var nextIndex := index + 1;
      var progress := Award(state.careerProgress.moduleProgress[state.activeModule], index, stars);
      var table := state.careerProgress.moduleProgress[state.activeModule := progress];
      var totalStars := table[Abstract].starsEarned + table[Drone].starsEarned
                        + table[Bridge].starsEarned + table[Robotics].starsEarned;
      if state.activeModule == Abstract {
        state := state.(unlockedLevelIndex := Max(state.unlockedLevelIndex, nextIndex),
                        starsPerLevel := state.starsPerLevel[index := Max(StarsAt(state.starsPerLevel, index), stars)]);
      }
      state := state.(careerProgress := state.careerProgress.(totalStars := totalStars, moduleProgress := table));
      ValidIgnoresDisplayFields(catalog, Credited(s, stars), state);
      CheckModuleUnlocks();
    }

    /** The bookkeeping every evaluator ends with. */
    method RecordOutcome(r: SubmitResult)
      requires Valid()
      modifies this
      ensures state == Recorded(old(state), r)
      ensures Valid()
    {
      ghost var s := state;
      RecordedEffect(catalog, s, r);
      state := state.(bestErrorThisLevel := Some(BestAfter(state.bestErrorThisLevel, r.magnitudeError)));
      ValidIgnoresDisplayFields(catalog, s, state);
      if r.success {
        UnlockNextLevel(3);
        state := state.(isGameWon := true, isPlaying := false);
      } else {
        state := state.(attemptsDisplay := Max(0, state.attemptsDisplay - 1));
      }
    }

    /** `submitAbstractResult`. */
    method SubmitAbstract() returns (r: SubmitResult)
      requires Valid()
      modifies this
      ensures r == AbstractResult(sqrt, old(state))
      ensures state == Recorded(old(state), r)
      ensures Valid()
    {
      var level := state.currentLevel;
      var resultant := Accumulate(Components(state.vectors));
      var errorVector := Sub(level.targetVector, resultant);
      var errorMag := Magnitude(sqrt, errorVector);
      var verdict := Classify(errorMag, level.tolerance, false, state.bestErrorThisLevel);
      r := SubmitResult(verdict.success, errorVector, errorMag, verdict.isNearMiss, NoFlag);
      RecordOutcome(r);
    }

    /** `submitDroneResult`, falling back to the abstract evaluator without a drone state. */
    method SubmitDrone() returns (r: SubmitResult)
      requires Valid() && state.activeModule == Drone
      modifies this
      ensures r == Outcome(sqrt, old(state))
      ensures state == AfterSubmit(sqrt, old(state))
      ensures Valid()
    {
      if state.droneState.None? || !state.currentLevel.config.DroneConfig? {
        r := SubmitAbstract();
        return;
      }
      ghost var s := state;
      var level := state.currentLevel;
      var wind := state.droneState.value.currentWind;
      var thrustResultant := Accumulate(Components(state.vectors));
      var effectiveVector := Add(thrustResultant, wind);
      var target := level.config.deliveryTargets[0];
      var errorVector := Sub(target, effectiveVector);
      var errorMag := Magnitude(sqrt, errorVector);
      var thrustMagnitude := Magnitude(sqrt, thrustResultant);
      var batteryUsed := thrustMagnitude * level.config.battery.drainPerUnit;
      var batteryDepleted := batteryUsed > level.config.battery.maxCapacity;
      var verdict := Classify(errorMag, level.tolerance, batteryDepleted, state.bestErrorThisLevel);
      r := SubmitResult(verdict.success, errorVector, errorMag, verdict.isNearMiss, BatteryDepleted(batteryDepleted));
      assert batteryUsed == BatteryUsed(sqrt, s);
      MeasuredValid(catalog, sqrt, s, r);
      state := state.(droneState := Some(state.droneState.value.(batteryRemaining := level.config.battery.maxCapacity - batteryUsed)));
      assert state == Measured(sqrt, s, r);
      RecordOutcome(r);
    }

    /** `submitBridgeResult`, falling back to the abstract evaluator without a bridge state. */
    method SubmitBridge() returns (r: SubmitResult)
      requires Valid() && state.activeModule == Bridge
      modifies this
      ensures r == Outcome(sqrt, old(state))
      ensures state == AfterSubmit(sqrt, old(state))
      ensures Valid()
    {
      if state.bridgeState.None? || !state.currentLevel.config.BridgeConfig? {
        r := SubmitAbstract();
        return;
      }
      ghost var s := state;
      var level := state.currentLevel;
      var supportResultant := Accumulate(Components(state.vectors));
      var loadResultant := Accumulate(Forces(level.config.loads));
      var netForce := Add(supportResultant, loadResultant);
      var equilibriumError := Magnitude(sqrt, netForce);
      var budgetExceeded := state.bridgeState.value.totalCost > level.config.budget;
      var verdict := Classify(equilibriumError, level.tolerance, budgetExceeded, state.bestErrorThisLevel);
      r := SubmitResult(verdict.success, netForce, equilibriumError, verdict.isNearMiss, BudgetExceeded(budgetExceeded));
      MeasuredValid(catalog, sqrt, s, r);
      state := state.(bridgeState := Some(state.bridgeState.value.(equilibriumError := Some(equilibriumError))));
      assert state == Measured(sqrt, s, r);
      RecordOutcome(r);
    }

    /** `submitRoboticsResult`, falling back to the abstract evaluator without a robotics state. */
    method SubmitRobotics() returns (r: SubmitResult)
      requires Valid() && state.activeModule == Robotics
      modifies this
      ensures r == Outcome(sqrt, old(state))
      ensures state == AfterSubmit(sqrt, old(state))
      ensures Valid()
    {
      if state.roboticsState.None? || !state.currentLevel.config.RoboticsConfig? {
        r := SubmitAbstract();
        return;
      }
      var level := state.currentLevel;
      var rs := state.roboticsState.value;
      var currentTarget := if rs.sequenceStep == 0 then level.config.pickupTarget else level.config.placeTarget;
      var errorVector := Sub(currentTarget, rs.endEffectorPosition);
      var errorMag := Magnitude(sqrt, errorVector);
      var jointLimitViolation := ScanJointLimits(level.config.joints, rs.jointAngles);
      var verdict := Classify(errorMag, level.tolerance, jointLimitViolation, state.bestErrorThisLevel);
      r := SubmitResult(verdict.success, errorVector, errorMag, verdict.isNearMiss, JointLimitViolation(jointLimitViolation));
      assert r == RoboticsResult(sqrt, state);
      assert Measured(sqrt, state, r) == state;
      RecordOutcome(r);
    }

    /** `submitResult`: dispatch on the active module. */
    method Submit() returns (r: SubmitResult)
      requires Valid()
      modifies this
      ensures r == Outcome(sqrt, old(state))
      ensures state == AfterSubmit(sqrt, old(state))
      ensures Valid()
    {
      match state.activeModule
      case Drone => r := SubmitDrone();
      case Bridge => r := SubmitBridge();
      case Robotics => r := SubmitRobotics();
      case Abstract => r := SubmitAbstract();
    }

    /** `simulateWind`, with the wall-clock time in milliseconds as a parameter. */
    method SimulateWind(nowMs: real)
      requires Valid()
      modifies this
      ensures state == WindBlown(sin, old(state), nowMs)
      ensures Valid()
    {
      WindBlownEffect(catalog, sin, state, nowMs);
      if state.droneState.None? || !state.currentLevel.config.DroneConfig? {
        return;
      }
      var wind := state.currentLevel.config.wind;
      state := state.(droneState := Some(state.droneState.value.(currentWind := WindAt(sin, wind, nowMs))));
    }
  }
}
