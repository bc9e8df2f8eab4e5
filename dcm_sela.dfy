/**
 * The self-assessment: the learner's achievement list is built from the
 * coded tree (one entry per facet) when there is none, and the learner steps
 * through it, toggling one competence level per facet.
 */
module DcmSela {
  import opened Wrappers
  import opened Sequences
  import opened DcmCore
  import opened CodedTrees
  import opened Stepper
  import DcmChart

  // ---------------------------------------------------------------------
  // setup_achievements: one achievement per facet

  /** The path of a facet's achievement: `tree/aspect_code/facet`. */
  function FacetPath(treeId: string, code: string, facet: Facet): string
  {
    treeId + "/" + code + "/" + facet.id
  }

  /** The entries of the first `k` facets of one aspect, in order. */
  function FacetEntries(treeId: string, code: string, facets: seq<Facet>, k: nat): (r: seq<Achievement>)
    requires k <= |facets|
    ensures |r| == k
    ensures forall m :: 0 <= m < k ==> r[m] == NewAchievement(FacetPath(treeId, code, facets[m]))
  {
    if k == 0 then []
    else FacetEntries(treeId, code, facets, k - 1) + [NewAchievement(FacetPath(treeId, code, facets[k - 1]))]
  }

  /** The entries of the first `i` aspects, in aspect order: as many as those aspects have facets. */
  function SelaEntries(t: CodedTree, i: nat): (r: seq<Achievement>)
    requires i <= |t.aspects|
    ensures |r| == DcmChart.FacetCount(t.aspects[..i])
  {
    if i == 0 then []
    else
      var (code, aspect) := t.aspects[i - 1];
      assert t.aspects[..i][..i - 1] == t.aspects[..i - 1];
      SelaEntries(t, i - 1) + FacetEntries(t.id, code, aspect.facets, |aspect.facets|)
  }

  /** Everything setup_achievements appends. */
  function SetupEntries(t: CodedTree): seq<Achievement>
  {
    SelaEntries(t, |t.aspects|)
  }

  /** The list holds exactly one entry per facet of the tree. */
  lemma SetupEntriesCount(t: CodedTree)
    ensures |SetupEntries(t)| == DcmChart.FacetCount(t.aspects)
  {
    assert t.aspects[..|t.aspects|] == t.aspects;
  }

  /**
   * Facet `k` of aspect `i` has its entry right after the facets of the
   * aspects before it: the entries follow aspect order, then facet order.
   */
  lemma {:induction false} SelaEntryAt(t: CodedTree, n: nat, i: nat, k: nat)
    requires i < n <= |t.aspects| && k < |t.aspects[i].1.facets|
    ensures var r := SelaEntries(t, n);
      && DcmChart.FacetCount(t.aspects[..i]) + k < |r|
      && r[DcmChart.FacetCount(t.aspects[..i]) + k]
         == NewAchievement(FacetPath(t.id, t.aspects[i].0, t.aspects[i].1.facets[k]))
    decreases n
  {
    var before := DcmChart.FacetCount(t.aspects[..i]);
    var (code, aspect) := t.aspects[n - 1];
    var prev := SelaEntries(t, n - 1);
    var block := FacetEntries(t.id, code, aspect.facets, |aspect.facets|);
    assert SelaEntries(t, n) == prev + block;
    if n == i + 1 {
      assert (prev + block)[before + k] == block[k];
    } else {
      SelaEntryAt(t, n - 1, i, k);
      assert (prev + block)[before + k] == prev[before + k];
    }
  }

  /** Every entry is a fresh achievement of some facet. */
  lemma {:induction false} SelaEntriesFresh(t: CodedTree, n: nat)
    requires n <= |t.aspects|
    ensures forall x :: x in SelaEntries(t, n) ==> x.level.None? && x.score.None? && x.scoreUnit == Some("%")
    decreases n
  {
    if n > 0 {
      SelaEntriesFresh(t, n - 1);
      var (code, aspect) := t.aspects[n - 1];
      var block := FacetEntries(t.id, code, aspect.facets, |aspect.facets|);
      assert SelaEntries(t, n) == SelaEntries(t, n - 1) + block;
      forall x | x in block ensures x.level.None? && x.score.None? && x.scoreUnit == Some("%") {
        var m :| 0 <= m < |block| && block[m] == x;
      }
    }
  }

  // ---------------------------------------------------------------------
  // update_achievement_view: what the markdown view shows

  /**
   * What showing the achievement at `path` does to the views, given what the
   * tree's lookup found there (its description, itself optional): the
   * notices, then the markdown.
   */
  function SelaOutcome(found: Option<Option<string>>, path: string, notices: seq<string>)
    : (r: (seq<string>, Option<string>))
    ensures found.None? ==> r == (notices + [InvalidPath], Some(MissingMarkdown(path)))
    ensures found.Some? ==> r == (notices, found.value)
  {
    match found
    case None => (notices + [InvalidPath], Some(MissingMarkdown(path)))
    case Some(description) => (notices, description)
  }

  // ---------------------------------------------------------------------
  // SelfAssessment

  class SelfAssessment {
    var tree: CodedTree
    var learner: Learner
    /** The tree's lookup_by_path: nothing, or the element found with its description. */
    const lookup: string -> Option<Option<string>>
    var achievementIndex: int
    var total: int
    var progressBar: ProgressBar
    var screen: Screen
    var buttonRow: ButtonRow

    /**
     * SelfAssessment(...): index 0, the achievement list built when there is
     * none, setup_ui, then update_achievement_view with no step. setup_ui
     * reads the current achievement, which needs one at index 0.
     */
    constructor(t: CodedTree, l: Learner, lookup: string -> Option<Option<string>>)
      requires l.achievements.Some? ==> |l.achievements.value| > 0
      requires l.achievements.None? ==> DcmChart.FacetCount(t.aspects) > 0
      modifies l
      ensures tree == t && learner == l && this.lookup == lookup && achievementIndex == 0
      ensures old(l.achievements).None? ==> l.achievements == Some(SetupEntries(t))
      ensures old(l.achievements).Some? ==> l.achievements == old(l.achievements)
      ensures l.achievementsByPath == old(l.achievementsByPath)
      ensures total == |l.List()| > 0
      ensures progressBar.total == total && progressBar.value == LevelCount(l.List())
      ensures screen.indexText == IndexStr(0, total)
      ensures buttonRow.owner == l && buttonRow.position == Some(0)
      ensures buttonRow.buttons == ButtonStates(LevelKeys(t.levels), l.List()[0].level)
      ensures (screen.notices, screen.markdown) == SelaOutcome(lookup(l.List()[0].path), l.List()[0].path, [])
    {
      tree := t;
      learner := l;
      this.lookup := lookup;
      achievementIndex := 0;
      total := 0;
      progressBar := new ProgressBar(0);
      screen := new Screen("");
      buttonRow := new ButtonRow([], l, None);
      new;
      if l.achievements.None? {
        l.achievements := Some([]);
        SetupAchievements();
        assert [] + SetupEntries(t) == SetupEntries(t);
        SetupEntriesCount(t);
      }
      SetupUi();
      var raised := UpdateAchievementView(0);
    }

    /** setup_achievements: per aspect and facet, a fresh achievement appended to the learner's list. */
    method SetupAchievements()
      requires learner.achievements.Some?
      modifies learner
      ensures learner.achievements == Some(old(learner.List()) + SetupEntries(tree))
      ensures learner.achievementsByPath == old(learner.achievementsByPath)
    {
      ghost var start := learner.List();
      var aspects := tree.aspects;
      assert start + SelaEntries(tree, 0) == start;
      for i := 0 to |aspects|
        invariant learner.achievements == Some(start + SelaEntries(tree, i))
        invariant learner.achievementsByPath == old(learner.achievementsByPath)
      {
        var (code, aspect) := aspects[i];
        AddFacetAchievements(code, aspect.facets);
        Associative(start, SelaEntries(tree, i), FacetEntries(tree.id, code, aspect.facets, |aspect.facets|));
      }
    }

    /** The inner loop of setup_achievements, over one aspect's facets. */
    method AddFacetAchievements(code: string, facets: seq<Facet>)
      requires learner.achievements.Some?
      modifies learner
      ensures learner.achievements == Some(old(learner.List()) + FacetEntries(tree.id, code, facets, |facets|))
      ensures learner.achievementsByPath == old(learner.achievementsByPath)
    {
      ghost var before := learner.List();
      assert before + FacetEntries(tree.id, code, facets, 0) == before;
      for k := 0 to |facets|
        invariant learner.achievements == Some(before + FacetEntries(tree.id, code, facets, k))
        invariant learner.achievementsByPath == old(learner.achievementsByPath)
      {
        var path := tree.id + "/" + code + "/" + facets[k].id;
        learner.achievements := Some(learner.achievements.value + [NewAchievement(path)]);
        Associative(before, FacetEntries(tree.id, code, facets, k), [NewAchievement(path)]);
      }
    }

    /** setup_ui: total is the list length; the progress bar, the index label, empty views and the button row. */
    method SetupUi()
      requires learner.achievements.Some? && 0 <= achievementIndex < |learner.achievements.value|
      modifies this
      ensures tree == old(tree) && learner == old(learner)
      ensures achievementIndex == old(achievementIndex) && total == |learner.List()|
      ensures fresh(progressBar) && progressBar.total == total && progressBar.value == 0
      ensures fresh(screen) && screen.indexText == IndexStr(achievementIndex, total) && screen.notices == []
      ensures fresh(buttonRow) && buttonRow.owner == learner && buttonRow.position == Some(achievementIndex)
      ensures buttonRow.buttons == ButtonStates(LevelKeys(tree.levels), learner.List()[achievementIndex].level)
    {
      total := |learner.achievements.value|;
      BuildUi();
    }

    /** The widgets of setup_ui, built for the current achievement once total is set. */
    method BuildUi()
      requires learner.achievements.Some? && 0 <= achievementIndex < |learner.achievements.value|
      modifies this
      ensures tree == old(tree) && learner == old(learner)
      ensures achievementIndex == old(achievementIndex) && total == old(total)
      ensures fresh(progressBar) && progressBar.total == total && progressBar.value == 0
      ensures fresh(screen) && screen.indexText == IndexStr(achievementIndex, total) && screen.notices == []
      ensures fresh(buttonRow) && buttonRow.owner == learner && buttonRow.position == Some(achievementIndex)
      ensures buttonRow.buttons == ButtonStates(LevelKeys(tree.levels), learner.List()[achievementIndex].level)
    {
      var bar := new ProgressBar(total);
      var labelled := new Screen(IndexStr(achievementIndex, total));
      var row := new ButtonRow(tree.levels, learner, Some(achievementIndex));
      assert LevelOf(row.Current()) == learner.List()[achievementIndex].level;
      progressBar, screen, buttonRow := bar, labelled, row;
    }

    /** show_progress: the progress bar's value is the number of achievements with a level; its total stays. */
    method ShowProgress()
      requires learner.achievements.Some?
      modifies progressBar
      ensures progressBar.total == old(progressBar.total) && progressBar.value == LevelCount(learner.List())
    {
      var count := CountLevels(learner.achievements.value);
      progressBar.value := count;
    }

    /** The state of the views. */
    function View(): ViewState
      reads this, screen, buttonRow
    {
      ViewState(achievementIndex, screen.indexText, screen.notices, screen.link, screen.markdown,
                buttonRow.buttons, buttonRow.owner, buttonRow.position)
    }

    /**
     * What moving the views `v` by a clamped step `s` leaves: past the last
     * achievement only "Done!" is notified; otherwise the achievement at the
     * moved index is shown.
     */
    ghost predicate Moved(v: ViewState, s: int, raised: Option<Error>)
      reads this, screen, buttonRow, learner
      requires learner.achievements.Some?
    {
      if v.index + s >= |learner.List()| then
        raised.None? && View() == v.(notices := v.notices + [Done])
      else ShownAt(v, v.index + s, raised)
    }

    /**
     * What showing the achievement at `index` leaves of the views `v`: the
     * index and its label move, and then either current_achievement's error
     * is raised or the buttons follow the achievement there and the markdown
     * view shows its description. The link view and everything else stay.
     */
    ghost predicate ShownAt(v: ViewState, index: int, raised: Option<Error>)
      reads this, screen, buttonRow, learner
      requires learner.achievements.Some?
    {
      var at := v.(index := index, indexText := IndexStr(index, total));
      match CurrentAchievement(learner.List(), index)
      case Err(e) => raised == Some(e) && View() == at
      case Ok(a) =>
        var o := SelaOutcome(lookup(a.path), a.path, v.notices);
        && raised.None?
        && View() == at.(notices := o.0, markdown := o.1,
                         buttons := ButtonStates(v.buttons.Keys, a.level),
                         owner := learner, position := Some(index))
    }

    /**
     * What update_achievement_view(step) leaves of the views `v`: a step
     * below the first achievement notifies "first achievement reached!" and
     * becomes no step, then the views move.
     */
    ghost predicate Updated(v: ViewState, step: int, raised: Option<Error>)
      reads this, screen, buttonRow, learner
      requires learner.achievements.Some?
    {
      if v.index + step < 0 then Moved(v.(notices := v.notices + [FirstReached]), 0, raised)
      else Moved(v, step, raised)
    }

    /**
     * update_achievement_view: refresh the progress, clamp a step below the
     * first achievement, then either show the achievement at the new index
     * or notify "Done!". current_achievement may raise.
     */
    method UpdateAchievementView(step: int) returns (raised: Option<Error>)
      requires learner.achievements.Some?
      modifies this, progressBar, screen, buttonRow
      ensures tree == old(tree) && learner == old(learner) && total == old(total)
      ensures progressBar == old(progressBar) && screen == old(screen) && buttonRow == old(buttonRow)
      ensures progressBar.total == old(progressBar.total) && progressBar.value == LevelCount(learner.List())
      ensures achievementIndex == StepIndex(old(achievementIndex), step, |learner.List()|)
      ensures Updated(old(View()), step, raised)
    {
      ShowProgress();
      if achievementIndex + step < 0 {
        // a step below the first achievement notifies and becomes 0
        screen.notices := screen.notices + [FirstReached];
        raised := MoveBy(0);
      } else {
        raised := MoveBy(step);
      }
    }

    /** The rest of update_achievement_view once the step is clamped: move and show, or notify "Done!". */
    method MoveBy(s: int) returns (raised: Option<Error>)
      requires learner.achievements.Some?
      modifies this, screen, buttonRow
      ensures tree == old(tree) && learner == old(learner) && total == old(total)
      ensures progressBar == old(progressBar) && screen == old(screen) && buttonRow == old(buttonRow)
      ensures achievementIndex == if old(achievementIndex) + s < |learner.List()| then old(achievementIndex) + s else old(achievementIndex)
      ensures Moved(old(View()), s, raised)
    {
      raised := None;
      if achievementIndex + s < |learner.achievements.value| {
        raised := MoveTo(achievementIndex + s);
      } else {
        screen.notices := screen.notices + [Done];
      }
    }

    /** The in-range branch of update_achievement_view: move to `index`, label it and show the achievement there. */
    method MoveTo(index: int) returns (raised: Option<Error>)
      requires learner.achievements.Some?
      modifies this, screen, buttonRow
      ensures tree == old(tree) && learner == old(learner) && total == old(total)
      ensures progressBar == old(progressBar) && screen == old(screen) && buttonRow == old(buttonRow)
      ensures achievementIndex == index
      ensures ShownAt(old(View()), index, raised)
    {
      ghost var v := View();
      raised := None;
      achievementIndex := index;
      ShowIndex();
      assert View() == v.(index := index, indexText := IndexStr(index, total));
      match CurrentAchievement(learner.achievements.value, index)
      case Err(e) =>
        raised := Some(e);
      case Ok(achievement) =>
        ShowAchievement(achievement);
    }

    /** The index label of the current achievement; nothing else changes. */
    method ShowIndex()
      modifies screen
      ensures View() == old(View()).(indexText := IndexStr(achievementIndex, total))
    {
      screen.indexText := IndexStr(achievementIndex, total);
    }

    /**
     * The shown branch of update_achievement_view: the buttons follow the
     * achievement, the markdown its description; the link view stays.
     */
    method ShowAchievement(a: Achievement)
      requires 0 <= achievementIndex
      modifies screen, buttonRow
      ensures var v := old(View());
        var o := SelaOutcome(lookup(a.path), a.path, v.notices);
        View() == v.(notices := o.0, markdown := o.1,
                     buttons := ButtonStates(v.buttons.Keys, a.level),
                     owner := learner, position := Some(achievementIndex))
    {
      buttonRow.owner := learner;
      buttonRow.position := Some(achievementIndex);
      buttonRow.SetButtonStates(Some(a));
      var shown := SelaOutcome(lookup(a.path), a.path, screen.notices);
      screen.notices := shown.0;
      screen.markdown := shown.1;
    }

    /**
     * ButtonRow.handle_selection with its call back: toggle the level of the
     * row's achievement, then update the view by the resulting step.
     */
    method HandleSelection(selected: int) returns (raised: Option<Error>)
      requires learner.achievements.Some?
      requires buttonRow.position.Some? && buttonRow.owner.achievements.Some?
      requires buttonRow.position.value < |buttonRow.owner.achievements.value|
      modifies this, progressBar, screen, buttonRow, buttonRow.owner
      ensures buttonRow == old(buttonRow) && learner == old(learner)
      ensures old(buttonRow.owner).achievements
           == Some(WithLevel(old(buttonRow.owner.List()), old(buttonRow.position.value),
                             Toggled(old(buttonRow.owner.List())[old(buttonRow.position.value)].level, selected)))
      ensures old(buttonRow.owner).achievementsByPath == old(buttonRow.owner.achievementsByPath)
      ensures progressBar.total == old(progressBar.total) && progressBar.value == LevelCount(learner.List())
      ensures var level := Toggled(old(buttonRow.owner.List())[old(buttonRow.position.value)].level, selected);
        && achievementIndex == StepIndex(old(achievementIndex), StepAfter(level), |learner.List()|)
        && Updated(old(View()).(buttons := ButtonStates(old(buttonRow.buttons).Keys, level)), StepAfter(level), raised)
    {
      var step := buttonRow.HandleSelection(selected);
      raised := UpdateAchievementView(step);
    }
  }
}
