/**
 * What the assessment and the self-assessment share: the row of level
 * buttons, the toggling of the current achievement's level, the clamped
 * stepping of the achievement index, the progress count and the "n/total"
 * index label.
 */
module Stepper {
  import opened Wrappers
  import opened Text
  import opened DcmCore

  // ---------------------------------------------------------------------
  // Level buttons

  datatype ButtonState = ButtonState(enabled: bool, visible: bool)

  const Shown := ButtonState(true, true)
  const Hidden := ButtonState(false, false)

  /** The keys of the button dictionary: one button per competence level number. */
  function LevelKeys(levels: seq<Level>): (keys: set<int>)
    ensures forall l :: l in levels ==> l.level in keys
    ensures forall k :: k in keys ==> exists l :: l in levels && l.level == k
  {
    set l | l in levels :: l.level
  }

  /** The level of an optional achievement; no achievement counts as no level. */
  function LevelOf(a: Option<Achievement>): Option<int>
  {
    if a.None? then None else a.value.level
  }

  /**
   * The button states set_button_states leaves: without a level every button
   * is enabled and visible, otherwise only the button of that level is.
   */
  function ButtonStates(keys: set<int>, level: Option<int>): (m: map<int, ButtonState>)
    ensures m.Keys == keys
    ensures forall k :: k in m ==> m[k] == Shown || m[k] == Hidden
    ensures forall k :: k in m ==> (m[k] == Shown <==> level.None? || level == Some(k))
  {
    map k | k in keys :: StateFor(k, level)
  }

  /** The state of the button keyed `k` for the given level. */
  function StateFor(k: int, level: Option<int>): ButtonState
  {
    if level.None? || level == Some(k) then Shown else Hidden
  }

  /** The visible buttons are all of them without a level, and at most the level's own button with one. */
  lemma {:induction false} VisibleButtons(keys: set<int>, level: Option<int>)
    ensures var m := ButtonStates(keys, level);
      && (level.None? ==> (set k | k in m && m[k].visible) == keys)
      && (level.Some? ==> (set k | k in m && m[k].visible) == keys * {level.value})
  {
    var m := ButtonStates(keys, level);
    var visible := set k | k in m && m[k].visible;
    if level.Some? {
      forall k ensures k in visible <==> k in keys * {level.value} {
        if k in m { assert m[k].visible <==> m[k] == Shown; }
      }
    } else {
      forall k ensures k in visible <==> k in keys {
        if k in m { assert m[k] == Shown; }
      }
    }
  }

  // ---------------------------------------------------------------------
  // handle_selection

  /** Selecting the current level clears it; selecting any other level sets it. */
  function Toggled(current: Option<int>, selected: int): (r: Option<int>)
    ensures r.None? <==> current == Some(selected)
    ensures r.Some? ==> r.value == selected
  {
    if current == Some(selected) then None else Some(selected)
  }

  /** Selecting the same level twice restores an unset level or the selected one. */
  lemma ToggleTwice(current: Option<int>, selected: int)
    requires current.None? || current == Some(selected)
    ensures Toggled(Toggled(current, selected), selected) == current
  {
  }

  /** The step after a selection: 1 when the level is truthy, so level 0 does not advance. */
  function StepAfter(level: Option<int>): (step: int)
    ensures step == 0 || step == 1
    ensures step == 1 <==> level.Some? && level.value != 0
  {
    if level.Some? && level.value != 0 then 1 else 0
  }

  /** A selection moves on exactly when it sets a level other than 0. */
  lemma SelectionStep(current: Option<int>, selected: int)
    ensures StepAfter(Toggled(current, selected)) == 1 <==> current != Some(selected) && selected != 0
  {
  }

  /** The achievement list with the level of position `pos` replaced. */
  function WithLevel(list: seq<Achievement>, pos: nat, level: Option<int>): (r: seq<Achievement>)
    requires pos < |list|
    ensures |r| == |list| && r[pos].level == level
    ensures forall k :: 0 <= k < |r| ==> r[k].path == list[k].path
    ensures forall k :: 0 <= k < |r| && k != pos ==> r[k] == list[k]
  {
    list[pos := list[pos].(level := level)]
  }

  /** Changing levels keeps every path, so the path index stays what it was. */
  lemma WithLevelKeepsIndex(list: seq<Achievement>, pos: nat, level: Option<int>, index: map<string, nat>)
    requires pos < |list|
    ensures LastIndexByPath(WithLevel(list, pos, level)) == LastIndexByPath(list)
    ensures IndexOk(list, index) ==> IndexOk(WithLevel(list, pos, level), index)
  {
    LastIndexByPathOnlyPaths(WithLevel(list, pos, level), list);
  }

  // ---------------------------------------------------------------------
  // show_progress

  /** The number of achievements whose level is not None. */
  function LevelCount(list: seq<Achievement>): (n: nat)
    ensures n <= |list|
  {
    if list == [] then 0
    else LevelCount(list[..|list| - 1]) + Indicator(list[|list| - 1].level.Some?)
  }

  function Indicator(b: bool): nat { if b then 1 else 0 }

  /** The count is the length exactly when every level is set, and 0 exactly when none is. */
  lemma {:induction false} LevelCountExtremes(list: seq<Achievement>)
    ensures LevelCount(list) == |list| <==> forall k :: 0 <= k < |list| ==> list[k].level.Some?
    ensures LevelCount(list) == 0 <==> forall k :: 0 <= k < |list| ==> list[k].level.None?
    decreases |list|
  {
    if list != [] {
      var n := |list| - 1;
      var init := list[..n];
      LevelCountExtremes(init);
      assert forall k :: 0 <= k < n ==> init[k] == list[k];
    }
  }

  /** Setting or clearing one level moves the progress count by that one achievement. */
  lemma {:induction false} LevelCountWithLevel(list: seq<Achievement>, pos: nat, level: Option<int>)
    requires pos < |list|
    ensures LevelCount(WithLevel(list, pos, level)) + Indicator(list[pos].level.Some?)
         == LevelCount(list) + Indicator(level.Some?)
    decreases |list|
  {
    var r := WithLevel(list, pos, level);
    var n := |list| - 1;
    assert LevelCount(r) == LevelCount(r[..n]) + Indicator(r[n].level.Some?);
    assert LevelCount(list) == LevelCount(list[..n]) + Indicator(list[n].level.Some?);
    if pos == n {
      assert r[..n] == list[..n];
    } else {
      LevelCountWithLevel(list[..n], pos, level);
      assert r[..n] == WithLevel(list[..n], pos, level);
    }
  }

  /** The generator sum of show_progress, as a loop. */
  method CountLevels(list: seq<Achievement>) returns (count: nat)
    ensures count == LevelCount(list)
  {
    count := 0;
    for i := 0 to |list|
      invariant count == LevelCount(list[..i])
    {
      assert list[..i + 1][..i] == list[..i];
      if list[i].level.Some? {
        count := count + 1;
      }
    }
    assert list[..|list|] == list;
  }

  /** The progress bar: its total and its current value. */
  class ProgressBar {
    var total: int
    var value: int

    /** NiceguiProgressbar(total=...) followed by reset(). */
    constructor(total: int)
      ensures this.total == total && value == 0
    {
      this.total := total;
      value := 0;
    }
  }

  /** What the link view shows: Link.create(url, text) markup, or plain text. */
  datatype LinkView = Anchor(url: string, text: string) | Plain(text: string)

  /** The widgets a stepper writes to: the index label, the link and markdown views, and the notifications shown so far. */
  class Screen {
    var indexText: string
    var link: LinkView
    var markdown: Option<string>
    var notices: seq<string>

    constructor(indexText: string)
      ensures this.indexText == indexText && link == Plain("") && markdown == Some("") && notices == []
    {
      this.indexText := indexText;
      link := Plain("");
      markdown := Some("");
      notices := [];
    }
  }

  /**
   * Everything a stepper shows: the index and its label, the notices, the
   * link and markdown views, and the button row's states and the
   * achievement it refers to.
   */
  datatype ViewState = ViewState(index: int, indexText: string, notices: seq<string>, link: LinkView,
                                 markdown: Option<string>, buttons: map<int, ButtonState>,
                                 owner: Learner, position: Option<nat>)

  const FirstReached := "first achievement reached!"
  const Done := "Done!"

  /** The markdown shown for a path nothing is found at. */
  function MissingMarkdown(path: string): string
  {
    "\U{26A0}\U{FE0F} " + path
  }

  /** The notification for a path nothing is found at; update_achievement_view leaves the placeholder unformatted. */
  const InvalidPath := "invalid path: {achievement.path}"

  // ---------------------------------------------------------------------
  // update_achievement_view: clamped stepping

  /**
   * The index after a step: a step below 0 becomes no step, and the index
   * moves only when the target is below the list length.
   */
  function StepIndex(index: int, step: int, len: int): (r: int)
    ensures r == if 0 <= index + step < len then index + step else index
    ensures 0 <= index < len ==> 0 <= r < len
  {
    var s := if index + step < 0 then 0 else step;
    if index + s < len then index + s else index
  }

  /** Whether the view shows an achievement after the step, rather than notifying "Done!". */
  function Shows(index: int, step: int, len: int): (b: bool)
    ensures index + step >= 0 ==> (b <==> index + step < len)
    ensures index + step < 0 ==> (b <==> index < len)
  {
    var s := if index + step < 0 then 0 else step;
    index + s < len
  }

  // ---------------------------------------------------------------------
  // current_achievement

  /** The achievement at the index; ValueError outside 0..len, IndexError at len itself. */
  function CurrentAchievement(list: seq<Achievement>, index: int): (r: Result<Achievement, Error>)
    ensures r.Ok? <==> 0 <= index < |list|
    ensures r.Ok? ==> r.value == list[index]
    ensures r == Err(IndexError) <==> index == |list|
    ensures r.Err? && r != Err(IndexError) ==> r.error.ValueError?
  {
    if index < 0 || index > |list| then Err(ValueError("invalid achievement index " + IntStr(index)))
    else if index == |list| then Err(IndexError)
    else Ok(list[index])
  }

  /** Stepping from a valid index always leaves an achievement to show. */
  lemma SteppedIndexIsCurrent(list: seq<Achievement>, index: int, step: int)
    requires 0 <= index < |list|
    ensures CurrentAchievement(list, StepIndex(index, step, |list|)).Ok?
  {
  }

  // ---------------------------------------------------------------------
  // get_index_str

  /** `f"{index+1:2}/{total:2}"`. */
  function IndexStr(index: int, total: int): (r: string)
    ensures |r| >= 5
  {
    PadLeft(IntStr(index + 1), 2) + "/" + PadLeft(IntStr(total), 2)
  }

  /** The label splits at its '/' into the 1-based position and the total, read back as numbers. */
  lemma IndexStrReadsBack(index: int, total: int)
    requires index >= 0 && total >= 0
    ensures var parts := Split(IndexStr(index, total), '/');
      && |parts| == 2
      && IsDigits(TrimLeft(parts[0])) && DigitsValue(TrimLeft(parts[0])) == index + 1
      && IsDigits(TrimLeft(parts[1])) && DigitsValue(TrimLeft(parts[1])) == total
  {
    var a := PadLeft(Decimal(index + 1), 2);
    var b := PadLeft(Decimal(total), 2);
    assert IndexStr(index, total) == a + "/" + b;
    PaddedDecimal(index + 1);
    PaddedDecimal(total);
    SplitPath2(a, b);
    DecimalValue(index + 1);
    DecimalValue(total);
  }

  lemma PaddedDecimal(n: nat)
    ensures '/' !in PadLeft(Decimal(n), 2)
    ensures TrimLeft(PadLeft(Decimal(n), 2)) == Decimal(n)
  {
    var d := Decimal(n);
    assert !IsSpace(d[0]);
    if |d| < 2 {
      assert PadLeft(d, 2) == " " + d;
      assert (" " + d)[1..] == d;
    }
  }

  // ---------------------------------------------------------------------
  // ButtonRow

  /**
   * The button row of a stepper. `owner` and `position` stand for the
   * achievement object the row refers to: the achievement at that position
   * of the owner's list.
   */
  class ButtonRow {
    var buttons: map<int, ButtonState>
    var owner: Learner
    var position: Option<nat>

    /** The achievement the row refers to, if any. */
    function Current(): Option<Achievement>
      reads this, owner
    {
      if position.Some? && position.value < |owner.List()| then Some(owner.List()[position.value]) else None
    }

    /** ButtonRow(...): one button per level, then set_button_states for the achievement. */
    constructor(levels: seq<Level>, owner: Learner, position: Option<nat>)
      ensures this.owner == owner && this.position == position
      ensures buttons == ButtonStates(LevelKeys(levels), LevelOf(Current()))
    {
      this.owner := owner;
      this.position := position;
      buttons := map l | l in levels :: l.level := Shown;
      new;
      SetButtonStates(Current());
    }

    /** set_button_states: every button's state follows the achievement's level. */
    method SetButtonStates(a: Option<Achievement>)
      modifies this
      ensures buttons == ButtonStates(old(buttons).Keys, LevelOf(a))
      ensures owner == old(owner) && position == old(position)
    {
      var level := LevelOf(a);
      var keys := buttons.Keys;
      var states := buttons;
      var rest := buttons.Items;
      ghost var done: set<int> := {};
      while rest != {}
        invariant rest <= buttons.Items && states.Keys == keys && done <= keys
        invariant forall p :: p in rest ==> p.0 !in done
        invariant forall k :: k in keys && k !in done ==> (k, buttons[k]) in rest
        invariant forall k :: k in done ==> states[k] == StateFor(k, level)
        decreases rest
      {
        var item :| item in rest;
        var (key, _) := item;
        states := states[key := StateFor(key, level)];
        done := done + {key};
        rest := rest - {item};
      }
      var target := ButtonStates(keys, level);
      assert forall k :: k in keys ==> states[k] == StateFor(k, level) == target[k];
      assert states.Keys == target.Keys;
      buttons := states;
    }

    /**
     * handle_selection, up to the call back into the stepper: toggle the
     * level of the referenced achievement in place, reset the buttons and
     * return the step the stepper is then asked to take.
     */
    method HandleSelection(selected: int) returns (step: int)
      requires position.Some? && owner.achievements.Some? && position.value < |owner.achievements.value|
      modifies this, owner
      ensures owner == old(owner) && position == old(position)
      ensures owner.achievements
           == Some(WithLevel(old(owner.List()), position.value,
                             Toggled(old(owner.List())[position.value].level, selected)))
      ensures owner.achievementsByPath == old(owner.achievementsByPath)
      ensures old(owner.Valid()) ==> owner.Valid()
      ensures old(owner.Indexed()) ==> owner.Indexed()
      ensures buttons == ButtonStates(old(buttons).Keys, Toggled(old(owner.List())[position.value].level, selected))
      ensures step == StepAfter(Toggled(old(owner.List())[position.value].level, selected))
    {
      var list := owner.achievements.value;
      var pos := position.value;
      var level := Toggled(list[pos].level, selected);
      WithLevelKeepsIndex(list, pos, level, owner.achievementsByPath);
      owner.achievements := Some(WithLevel(list, pos, level));
      SetButtonStates(Some(owner.achievements.value[pos]));
      step := StepAfter(level);
    }
  }
}
