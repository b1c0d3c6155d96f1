/**
 * The module filter bar of the career dashboard: the selection toggle of its
 * buttons (`handleAllClick`, `handleModuleClick`) and the roving-focus index
 * arithmetic of its arrow, Home and End keys (`handleKeyDown`).
 */
module ModuleFilter {
  import opened Wrappers
  import opened Levels
  import opened Remainders

  /** The selection: every module, or a list of chosen modules. */
  datatype Filter = All | Only(modules: seq<GameModule>)

  const AllModules: set<GameModule> := {Abstract, Drone, Bridge, Robotics}

  /** The modules whose achievements are shown. */
  function Shown(f: Filter): set<GameModule> {
    match f
    case All => AllModules
    case Only(ms) => set m | m in ms
  }

  predicate NoDuplicates(ms: seq<GameModule>) {
    forall i, j :: 0 <= i < j < |ms| ==> ms[i] != ms[j]
  }

  /** A selection list is never empty and names each module at most once. */
  predicate WellFormed(f: Filter) {
    f.Only? ==> |f.modules| > 0 && NoDuplicates(f.modules)
  }

  /** `modules.filter(x => x !== m)`: the list without `m`, in its order. */
  function Without(ms: seq<GameModule>, m: GameModule): (r: seq<GameModule>)
    ensures forall x :: x in r <==> x in ms && x != m
    ensures |r| <= |ms|
    ensures m in ms ==> |r| < |ms|
    ensures NoDuplicates(ms) ==> NoDuplicates(r)
  {
    if |ms| == 0 then []
    else
      assert NoDuplicates(ms) ==> NoDuplicates(ms[1..]) && ms[0] !in ms[1..];
      var rest := Without(ms[1..], m);
      assert forall x :: x in ms[1..] ==> x in ms;
      if ms[0] == m then rest
      else
        assert forall j :: 0 <= j < |rest| ==> ([ms[0]] + rest)[j + 1] == rest[j];
        [ms[0]] + rest
  }

  /** `handleAllClick`: whatever was selected, every module is shown. */
  function ClickAll(f: Filter): (r: Filter)
    ensures Shown(r) == AllModules && WellFormed(r)
  {
    All
  }

  /**
   * `handleModuleClick(m)`: from "all" select just `m`; otherwise remove a
   * selected `m` (falling back to "all" when nothing would remain) or append
   * an unselected one. The result is never an empty list.
   */
  function ClickModule(f: Filter, m: GameModule): (r: Filter)
    ensures r.Only? ==> |r.modules| > 0
    ensures f.All? ==> r == Only([m])
  {
    match f
    case All => Only([m])
    case Only(ms) =>
      if m in ms then
        var rest := Without(ms, m);
        if |rest| == 0 then All else Only(rest)
      else Only(ms + [m])
  }

  lemma AllModulesComplete(m: GameModule)
    ensures m in AllModules
  {
    match m
    case Abstract =>
    case Drone =>
    case Bridge =>
    case Robotics =>
  }

  /**
   * Clicking a module toggles it in the shown set: from "all" only `m` is
   * shown; a shown `m` is dropped unless it was the only one, in which case
   * everything is shown; an unshown `m` is added. Well-formedness is kept.
   */
  lemma ClickModuleShown(f: Filter, m: GameModule)
    requires WellFormed(f)
    ensures WellFormed(ClickModule(f, m))
    ensures Shown(ClickModule(f, m)) ==
      if f.All? then {m}
      else if m in Shown(f) then (if Shown(f) == {m} then AllModules else Shown(f) - {m})
      else Shown(f) + {m}
  {
    match f
    case All =>
    case Only(ms) =>
      var r := ClickModule(f, m);
      if m in ms {
        var rest := Without(ms, m);
        if |rest| == 0 {
          assert Shown(f) == {m} by {
            forall x | x in Shown(f) ensures x == m {
              assert x in ms;
            }
          }
        } else {
          assert r == Only(rest);
          forall x ensures x in Shown(r) <==> x in Shown(f) && x != m {
            assert x in rest <==> x in ms && x != m;
          }
          assert Shown(r) == Shown(f) - {m};
          assert rest[0] in Shown(f) && rest[0] != m;
        }
      } else {
        assert r == Only(ms + [m]);
        forall x ensures x in Shown(r) <==> x in Shown(f) || x == m {
          assert x in ms + [m] <==> x in ms || x == m;
        }
        assert Shown(r) == Shown(f) + {m};
        assert NoDuplicates(ms + [m]);
      }
  }

  /** Clicking the same module twice shows the same modules as before. */
  lemma ClickTwiceRestores(f: Filter, m: GameModule)
    requires WellFormed(f)
    ensures Shown(ClickModule(ClickModule(f, m), m)) == Shown(f)
  {
    ClickModuleShown(f, m);
    ClickModuleShown(ClickModule(f, m), m);
    if f.Only? && m in Shown(f) && Shown(f) == {m} {
      forall x ensures x in AllModules { AllModulesComplete(x); }
      assert m in AllModules;
    }
    if f.Only? && m !in Shown(f) {
      assert Shown(f) + {m} != {m} by {
        var x := f.modules[0];
        assert x in Shown(f) && x != m;
      }
    }
  }

  /** Picking one module after "all" shows exactly that module. */
  lemma AllThenModule(f: Filter, m: GameModule)
    ensures ClickModule(ClickAll(f), m) == Only([m])
    ensures Shown(ClickModule(ClickAll(f), m)) == {m}
  {
  }

  // ---------------------------------------------------------------------
  // Roving focus

  /** The keys `handleKeyDown` reacts to, and every other key. */
  datatype NavKey = ArrowRight | ArrowDown | ArrowLeft | ArrowUp | Home | End | OtherKey

  /** The number of buttons in the bar: "All" and one per module. */
  const ButtonCount: nat := 5

  /** JavaScript's `%`: the remainder of a division truncated toward zero. */
  function JsRem(a: int, n: int): (r: int)
    requires n > 0
    ensures a >= 0 ==> r == a % n
    ensures -n < r < n
    ensures a < 0 ==> r <= 0
  {
    if a >= 0 then a % n else -((-a) % n)
  }

  /**
   * `handleKeyDown` over `count` buttons with the focused one at `current`
   * (-1 when none of them has focus): the index of the button to focus, or
   * none for other keys. The source indexes an empty button list and fails,
   * so at least one button is required.
   */
  function FocusTarget(key: NavKey, current: int, count: int): (r: Option<int>)
    requires count >= 1 && -1 <= current < count
    ensures r.None? <==> key == OtherKey
    ensures r.Some? ==> 0 <= r.value < count
  {
    match key
    case ArrowRight => Some(JsRem(current + 1, count))
    case ArrowDown => Some(JsRem(current + 1, count))
    case ArrowLeft => Some(JsRem(current - 1 + count, count))
    case ArrowUp => Some(JsRem(current - 1 + count, count))
    case Home => Some(0)
    case End => Some(count - 1)
    case OtherKey => None
  }

  /**
   * From a focused button, right/down moves to the next button and wraps
   * from the last to the first; left/up moves to the previous one and wraps
   * from the first to the last; Home and End go to the ends.
   */
  lemma FocusSteps(current: int, count: int)
    requires 0 <= current < count
    ensures FocusTarget(ArrowRight, current, count) == FocusTarget(ArrowDown, current, count)
         == Some(if current + 1 < count then current + 1 else 0)
    ensures FocusTarget(ArrowLeft, current, count) == FocusTarget(ArrowUp, current, count)
         == Some(if current > 0 then current - 1 else count - 1)
    ensures FocusTarget(Home, current, count) == Some(0) && FocusTarget(End, current, count) == Some(count - 1)
  {
    if current + 1 < count {
      ModBelow(current + 1, count);
    } else {
      ModSelf(count);
    }
    if current > 0 {
      ModShift(current - 1, count);
    } else {
      ModBelow(count - 1, count);
    }
  }

  /** A step right followed by a step left, or left then right, returns to the same button. */
  lemma FocusRoundTrip(current: int, count: int)
    requires 0 <= current < count
    ensures FocusTarget(ArrowLeft, FocusTarget(ArrowRight, current, count).value, count) == Some(current)
    ensures FocusTarget(ArrowRight, FocusTarget(ArrowLeft, current, count).value, count) == Some(current)
  {
    FocusSteps(current, count);
    var next := FocusTarget(ArrowRight, current, count).value;
    var prev := FocusTarget(ArrowLeft, current, count).value;
    FocusSteps(next, count);
    FocusSteps(prev, count);
  }

  /**
   * With no button focused, right/down focuses the first button, while
   * left/up focuses the second-to-last one when there are at least two; in
   * the bar's five buttons that is the fourth, not the last.
   */
  lemma FocusFromOutside(count: int)
    requires count >= 2
    ensures FocusTarget(ArrowRight, -1, count) == Some(0)
    ensures FocusTarget(ArrowLeft, -1, count) == Some(count - 2)
    ensures FocusTarget(ArrowLeft, -1, ButtonCount) == Some(3)
  {
    ModBelow(0, count);
    ModBelow(count - 2, count);
    ModBelow(3, ButtonCount);
  }
}
