/**
 * Tab / Shift-Tab cycling of the selected player vector (`cycleSelection` of
 * the keyboard controls): from the position of the selected id, forward
 * moves one step with wrap-around and reverse moves one step back with
 * wrap-around; with no vectors nothing is selected anew.
 *
 * Vector ids are the distinct naturals the session generates.
 */
module Selection {
  import opened Wrappers
  import opened Remainders

  /** `ids.indexOf(id)`: the first position holding `id`, or -1 when there is none. */
  function IndexOf(ids: seq<nat>, id: nat): (i: int)
    ensures -1 <= i < |ids|
    ensures i >= 0 ==> ids[i] == id && forall j :: 0 <= j < i ==> ids[j] != id
    ensures i == -1 <==> id !in ids
  {
    if |ids| == 0 then -1
    else if ids[0] == id then 0
    else
      var k := IndexOf(ids[1..], id);
      if k == -1 then -1 else k + 1
  }

  /** No id occurs twice. */
  predicate Distinct(ids: seq<nat>) {
    forall i, j :: 0 <= i < j < |ids| ==> ids[i] != ids[j]
  }

  /** Among distinct ids, the position found for the id at `k` is `k`. */
  lemma IndexOfDistinct(ids: seq<nat>, k: nat)
    requires Distinct(ids) && k < |ids|
    ensures IndexOf(ids, ids[k]) == k
  {
    assert ids[k] in ids;
  }

  /** The position cycling starts from: the selected id's, or -1 without a selection. */
  function CurrentIndex(ids: seq<nat>, selected: Option<nat>): int {
    match selected
    case None => -1
    case Some(id) => IndexOf(ids, id)
  }

  /**
   * `cycleSelection(reverse)`: the selection afterwards. With no vectors the
   * selection is left as it was; otherwise some vector's id is selected.
   */
  function Cycle(ids: seq<nat>, selected: Option<nat>, reverse: bool): (r: Option<nat>)
    ensures |ids| == 0 ==> r == selected
    ensures |ids| > 0 ==> r.Some? && r.value in ids
  {
    if |ids| == 0 then selected
    else
      var current := CurrentIndex(ids, selected);
      var next :=
        if reverse then (if current - 1 < 0 then |ids| - 1 else current - 1)
        else (current + 1) % |ids|;
      Some(ids[next])
  }

  /**
   * Forward cycling from the vector at position `i` selects the one after
   * it, and the first vector after the last; without a selection, or with a
   * selected id that is not among the vectors, it selects the first vector.
   */
  lemma CycleForward(ids: seq<nat>, selected: Option<nat>)
    requires |ids| > 0
    ensures var i := CurrentIndex(ids, selected);
      && (0 <= i < |ids| - 1 ==> Cycle(ids, selected, false) == Some(ids[i + 1]))
      && (i == |ids| - 1 ==> Cycle(ids, selected, false) == Some(ids[0]))
    ensures selected.None? || selected.value !in ids ==> Cycle(ids, selected, false) == Some(ids[0])
  {
    var n := |ids|;
    var i := CurrentIndex(ids, selected);
    if i + 1 < n {
      ModBelow(i + 1, n);
    } else {
      ModSelf(n);
    }
  }

  /**
   * Reverse cycling from the vector at position `i > 0` selects the one
   * before it, and from the first vector the last one; without a selection,
   * or with an unknown id, it selects the last vector.
   */
  lemma CycleReverse(ids: seq<nat>, selected: Option<nat>)
    requires |ids| > 0
    ensures var i := CurrentIndex(ids, selected);
      && (0 < i < |ids| ==> Cycle(ids, selected, true) == Some(ids[i - 1]))
      && (i == 0 ==> Cycle(ids, selected, true) == Some(ids[|ids| - 1]))
    ensures selected.None? || selected.value !in ids ==> Cycle(ids, selected, true) == Some(ids[|ids| - 1])
  {
  }

  /**
   * With distinct ids and a selected id among them, Tab then Shift-Tab, and
   * Shift-Tab then Tab, both come back to the original selection.
   */
  lemma CycleRoundTrip(ids: seq<nat>, selected: Option<nat>)
    requires Distinct(ids) && selected.Some? && selected.value in ids
    ensures Cycle(ids, Cycle(ids, selected, false), true) == selected
    ensures Cycle(ids, Cycle(ids, selected, true), false) == selected
  {
    var n := |ids|;
    var i := IndexOf(ids, selected.value);
    var forward := if i + 1 < n then i + 1 else 0;
    var backward := if i > 0 then i - 1 else n - 1;
    CycleForward(ids, selected);
    CycleReverse(ids, selected);
    assert Cycle(ids, selected, false) == Some(ids[forward]);
    assert Cycle(ids, selected, true) == Some(ids[backward]);
    IndexOfDistinct(ids, forward);
    IndexOfDistinct(ids, backward);
    CycleReverse(ids, Some(ids[forward]));
    CycleForward(ids, Some(ids[backward]));
  }

  /** Three vectors with ids 4, 7, 9 and 7 selected: Tab selects 9, Shift-Tab selects 4, and Tab from 9 wraps to 4. */
  lemma CycleExample()
    ensures Cycle([4, 7, 9], Some(7), false) == Some(9)
    ensures Cycle([4, 7, 9], Some(7), true) == Some(4)
    ensures Cycle([4, 7, 9], Some(9), false) == Some(4)
    ensures Cycle([4, 7, 9], None, true) == Some(9)
  {
    assert IndexOf([4, 7, 9], 7) == 1 by {
      assert [4, 7, 9][1..] == [7, 9];
    }
    assert IndexOf([4, 7, 9], 9) == 2 by {
      assert [4, 7, 9][1..] == [7, 9];
      assert [7, 9][1..] == [9];
    }
  }
}
