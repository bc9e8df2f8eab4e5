/**
 * The assessment of a learner against a competence tree: it builds the
 * learner's achievement list from the tree when there is none, steps through
 * the achievements one at a time, shows each one's link and description and
 * lets the learner toggle a level for it.
 */
module DcmAssessment {
  import opened Wrappers
  import opened Text
  import opened Sequences
  import opened DcmCore
  import opened Stepper

  // ---------------------------------------------------------------------
  // setup_achievements: the achievement list built from the tree

  /** One area's entries: the area path, then one path per facet of the first `k` facets. */
  function AreaEntries(areaPath: string, facets: seq<Facet>, k: nat): (r: seq<Achievement>)
    requires k <= |facets|
    ensures |r| == k + 1 && r[0] == NewAchievement(areaPath)
    ensures forall m :: 0 <= m < k ==> r[m + 1] == NewAchievement(areaPath + "/" + facets[m].id)
  {
    if k == 0 then [NewAchievement(areaPath)]
    else AreaEntries(areaPath, facets, k - 1) + [NewAchievement(areaPath + "/" + facets[k - 1].id)]
  }

  /**
   * The path an area's entries start from. It is `tree/aspect`: the area id
   * is not part of it, so it is the aspect's path.
   */
  function AreaPath(treeId: string, aspect: Aspect): string
  {
    treeId + "/" + aspect.id
  }

  /** The number of entries of a list of areas: one per area and one per facet. */
  function AreaSlots(areas: seq<Area>): nat
  {
    if areas == [] then 0
    else AreaSlots(areas[..|areas| - 1]) + 1 + |areas[|areas| - 1].facets|
  }

  /** The entries of the first `j` areas of an aspect, in order. */
  function AspectEntries(treeId: string, aspect: Aspect, j: nat): seq<Achievement>
    requires j <= |aspect.areas|
  {
    if j == 0 then []
    else
      var area := aspect.areas[j - 1];
      AspectEntries(treeId, aspect, j - 1) + AreaEntries(AreaPath(treeId, aspect), area.facets, |area.facets|)
  }

  /** An aspect's first `j` areas contribute one entry per area and one per facet. */
  lemma {:induction false} AspectEntriesLength(treeId: string, aspect: Aspect, j: nat)
    requires j <= |aspect.areas|
    ensures |AspectEntries(treeId, aspect, j)| == AreaSlots(aspect.areas[..j])
  {
    if j > 0 {
      AspectEntriesLength(treeId, aspect, j - 1);
      assert aspect.areas[..j][..j - 1] == aspect.areas[..j - 1];
    }
  }

  /**
   * A list extended by the entries of an aspect's first `j` areas, one area
   * at a time; the loop over the areas states its progress with it.
   */
  function AfterAreas(before: seq<Achievement>, treeId: string, aspect: Aspect, j: nat): seq<Achievement>
    requires j <= |aspect.areas|
  {
    if j == 0 then before
    else
      var area := aspect.areas[j - 1];
      AfterAreas(before, treeId, aspect, j - 1) + AreaEntries(AreaPath(treeId, aspect), area.facets, |area.facets|)
  }

  lemma {:induction false} AfterAreasAppends(before: seq<Achievement>, treeId: string, aspect: Aspect, j: nat)
    requires j <= |aspect.areas|
    ensures AfterAreas(before, treeId, aspect, j) == before + AspectEntries(treeId, aspect, j)
  {
    if j == 0 {
      assert before + AspectEntries(treeId, aspect, 0) == before;
    } else {
      var area := aspect.areas[j - 1];
      AfterAreasAppends(before, treeId, aspect, j - 1);
      Associative(before, AspectEntries(treeId, aspect, j - 1), AreaEntries(AreaPath(treeId, aspect), area.facets, |area.facets|));
    }
  }

  /** The number of entries of a list of aspects. */
  function AspectSlots(aspects: seq<Aspect>): nat
  {
    if aspects == [] then 0
    else AspectSlots(aspects[..|aspects| - 1]) + AreaSlots(aspects[|aspects| - 1].areas)
  }

  /** The entries of the first `i` aspects of the tree, in order. */
  function TreeEntries(t: CompetenceTree, i: nat): seq<Achievement>
    requires i <= |t.aspects|
  {
    if i == 0 then []
    else
      var aspect := t.aspects[i - 1];
      TreeEntries(t, i - 1) + AspectEntries(t.id, aspect, |aspect.areas|)
  }

  /** The tree's first `i` aspects contribute one entry per area and one per facet. */
  lemma {:induction false} TreeEntriesLength(t: CompetenceTree, i: nat)
    requires i <= |t.aspects|
    ensures |TreeEntries(t, i)| == AspectSlots(t.aspects[..i])
  {
    if i > 0 {
      var aspect := t.aspects[i - 1];
      TreeEntriesLength(t, i - 1);
      AspectEntriesLength(t.id, aspect, |aspect.areas|);
      assert aspect.areas[..|aspect.areas|] == aspect.areas;
      assert t.aspects[..i][..i - 1] == t.aspects[..i - 1];
    }
  }

  /** Everything setup_achievements appends, in order. */
  function SetupEntries(t: CompetenceTree): seq<Achievement>
  {
    TreeEntries(t, |t.aspects|)
  }

  /** The list holds one entry per area and one per facet of the whole tree. */
  lemma SetupEntriesCount(t: CompetenceTree)
    ensures |SetupEntries(t)| == AspectSlots(t.aspects)
  {
    TreeEntriesLength(t, |t.aspects|);
    assert t.aspects[..|t.aspects|] == t.aspects;
  }

  /**
   * Area `j` of an aspect contributes its block of entries (the area path,
   * then its facets in order) right after the entries of the areas before
   * it: entry `k` of the block sits at that offset plus `k`.
   */
  lemma {:induction false} AspectEntryAt(treeId: string, a: Aspect, n: nat, j: nat, k: nat)
    requires j < n <= |a.areas| && k <= |a.areas[j].facets|
    ensures var r := AspectEntries(treeId, a, n);
      var off := |AspectEntries(treeId, a, j)|;
      var facets := a.areas[j].facets;
      && off + k < |r|
      && r[off + k] == AreaEntries(AreaPath(treeId, a), facets, |facets|)[k]
    decreases n
  {
    var prev := AspectEntries(treeId, a, n - 1);
    var last := a.areas[n - 1];
    var block := AreaEntries(AreaPath(treeId, a), last.facets, |last.facets|);
    assert AspectEntries(treeId, a, n) == prev + block;
    if n == j + 1 {
      assert (prev + block)[|prev| + k] == block[k];
    } else {
      AspectEntryAt(treeId, a, n - 1, j, k);
      var off := |AspectEntries(treeId, a, j)|;
      assert (prev + block)[off + k] == prev[off + k];
    }
  }

  /**
   * In the list setup_achievements builds, area `j` of aspect `i` starts
   * after all entries of the aspects before `i` and of the areas before `j`;
   * entry `k` of the area's block (its area path for `k == 0`, then its
   * facets in order) sits at that offset plus `k`.
   */
  lemma {:induction false} SetupEntryAt(t: CompetenceTree, n: nat, i: nat, j: nat, k: nat)
    requires i < n <= |t.aspects| && j < |t.aspects[i].areas| && k <= |t.aspects[i].areas[j].facets|
    ensures SetupEntryIsAt(t, n, i, j, k)
    decreases n
  {
    if n == i + 1 {
      SetupEntryInLastAspect(t, i, j, k);
    } else {
      SetupEntryAt(t, n - 1, i, j, k);
      SetupEntryKept(t, n, i, j, k);
    }
  }

  /** Entry `k` of area `j` of aspect `i` sits at its offset in the entries of the first `n` aspects. */
  predicate SetupEntryIsAt(t: CompetenceTree, n: nat, i: nat, j: nat, k: nat)
  {
    && i < n <= |t.aspects| && j < |t.aspects[i].areas| && k <= |t.aspects[i].areas[j].facets|
    && var r := TreeEntries(t, n);
    var off := |TreeEntries(t, i)| + |AspectEntries(t.id, t.aspects[i], j)|;
    var facets := t.aspects[i].areas[j].facets;
    && off + k < |r|
    && r[off + k] == AreaEntries(AreaPath(t.id, t.aspects[i]), facets, |facets|)[k]
  }

  /** The step of SetupEntryAt where aspect `i` is the last one appended. */
  lemma {:induction false} SetupEntryInLastAspect(t: CompetenceTree, i: nat, j: nat, k: nat)
    requires i < |t.aspects| && j < |t.aspects[i].areas| && k <= |t.aspects[i].areas[j].facets|
    ensures SetupEntryIsAt(t, i + 1, i, j, k)
  {
    var aspect := t.aspects[i];
    var prev := TreeEntries(t, i);
    var block := AspectEntries(t.id, aspect, |aspect.areas|);
    assert TreeEntries(t, i + 1) == prev + block;
    AspectEntryAt(t.id, aspect, |aspect.areas|, j, k);
    var o := |AspectEntries(t.id, aspect, j)|;
    assert (prev + block)[|prev| + o + k] == block[o + k];
  }

  /** The step of SetupEntryAt where a later aspect is appended: the entry stays where it was. */
  lemma {:induction false} SetupEntryKept(t: CompetenceTree, n: nat, i: nat, j: nat, k: nat)
    requires i + 1 < n <= |t.aspects| && j < |t.aspects[i].areas| && k <= |t.aspects[i].areas[j].facets|
    requires SetupEntryIsAt(t, n - 1, i, j, k)
    ensures SetupEntryIsAt(t, n, i, j, k)
  {
    var prev := TreeEntries(t, n - 1);
    var aspect := t.aspects[n - 1];
    var block := AspectEntries(t.id, aspect, |aspect.areas|);
    assert TreeEntries(t, n) == prev + block;
    var off := |TreeEntries(t, i)| + |AspectEntries(t.id, t.aspects[i], j)|;
    assert (prev + block)[off + k] == prev[off + k];
  }

  /** An entry setup_achievements makes: a fresh achievement at `tree/aspect` or at `tree/aspect/facet`. */
  ghost predicate IsSetupEntry(t: CompetenceTree, x: Achievement)
  {
    exists i :: 0 <= i < |t.aspects| &&
      (|| (x == NewAchievement(AreaPath(t.id, t.aspects[i])) && |t.aspects[i].areas| > 0)
       || exists j, k :: 0 <= j < |t.aspects[i].areas| && 0 <= k < |t.aspects[i].areas[j].facets| &&
            x == NewAchievement(AreaPath(t.id, t.aspects[i]) + "/" + t.aspects[i].areas[j].facets[k].id))
  }

  /** Every entry is fresh and sits at an aspect path or at an aspect path extended by a facet id. */
  lemma {:induction false} SetupEntriesShape(t: CompetenceTree, i: nat)
    requires i <= |t.aspects|
    ensures forall x :: x in TreeEntries(t, i) ==> IsSetupEntry(t, x)
  {
    if i > 0 {
      SetupEntriesShape(t, i - 1);
      AspectEntriesShape(t, i - 1, |t.aspects[i - 1].areas|);
    }
  }

  lemma {:induction false} AspectEntriesShape(t: CompetenceTree, i: nat, j: nat)
    requires i < |t.aspects| && j <= |t.aspects[i].areas|
    ensures forall x :: x in AspectEntries(t.id, t.aspects[i], j) ==> IsSetupEntry(t, x)
  {
    if j > 0 {
      AspectEntriesShape(t, i, j - 1);
      var a := t.aspects[i];
      var area := a.areas[j - 1];
      var block := AreaEntries(AreaPath(t.id, a), area.facets, |area.facets|);
      forall x | x in block ensures IsSetupEntry(t, x) {
        var m :| 0 <= m < |block| && block[m] == x;
        if m > 0 {
          assert x == NewAchievement(AreaPath(t.id, a) + "/" + a.areas[j - 1].facets[m - 1].id);
        }
      }
    }
  }

  /** Conversely, every area yields its aspect path and every facet its own entry. */
  lemma {:induction false} SetupEntriesCover(t: CompetenceTree, i: nat)
    requires i <= |t.aspects|
    ensures forall n :: 0 <= n < i && |t.aspects[n].areas| > 0 ==>
      NewAchievement(AreaPath(t.id, t.aspects[n])) in TreeEntries(t, i)
    ensures forall n, j, k :: 0 <= n < i && 0 <= j < |t.aspects[n].areas| && 0 <= k < |t.aspects[n].areas[j].facets| ==>
      NewAchievement(AreaPath(t.id, t.aspects[n]) + "/" + t.aspects[n].areas[j].facets[k].id) in TreeEntries(t, i)
  {
    if i > 0 {
      SetupEntriesCover(t, i - 1);
      var a := t.aspects[i - 1];
      AspectEntriesCover(t.id, a, |a.areas|);
      var prev := TreeEntries(t, i - 1);
      var block := AspectEntries(t.id, a, |a.areas|);
      var all := TreeEntries(t, i);
      assert all == prev + block;
      forall n | 0 <= n < i && |t.aspects[n].areas| > 0
        ensures NewAchievement(AreaPath(t.id, t.aspects[n])) in all
      {
        if n < i - 1 {
          assert NewAchievement(AreaPath(t.id, t.aspects[n])) in prev;
        } else {
          assert NewAchievement(AreaPath(t.id, t.aspects[n])) in block;
        }
      }
      forall n, j, k | 0 <= n < i && 0 <= j < |t.aspects[n].areas| && 0 <= k < |t.aspects[n].areas[j].facets|
        ensures NewAchievement(AreaPath(t.id, t.aspects[n]) + "/" + t.aspects[n].areas[j].facets[k].id) in all
      {
        var x := NewAchievement(AreaPath(t.id, t.aspects[n]) + "/" + t.aspects[n].areas[j].facets[k].id);
        if n < i - 1 {
          assert x in prev;
        } else {
          assert x in block;
        }
      }
    }
  }

  lemma {:induction false} AspectEntriesCover(treeId: string, a: Aspect, j: nat)
    requires j <= |a.areas|
    ensures j > 0 ==> NewAchievement(AreaPath(treeId, a)) in AspectEntries(treeId, a, j)
    ensures forall m, k :: 0 <= m < j && 0 <= k < |a.areas[m].facets| ==>
      NewAchievement(AreaPath(treeId, a) + "/" + a.areas[m].facets[k].id) in AspectEntries(treeId, a, j)
  {
    if j > 0 {
      AspectEntriesCover(treeId, a, j - 1);
      var area := a.areas[j - 1];
      var block := AreaEntries(AreaPath(treeId, a), area.facets, |area.facets|);
      var prev := AspectEntries(treeId, a, j - 1);
      assert AspectEntries(treeId, a, j) == prev + block;
      assert block[0] in block;
      forall k | 0 <= k < |area.facets|
        ensures NewAchievement(AreaPath(treeId, a) + "/" + area.facets[k].id) in block
      {
        assert block[k + 1] in block;
      }
      forall x | x in prev ensures x in AspectEntries(treeId, a, j) {}
      forall x | x in block ensures x in AspectEntries(treeId, a, j) {}
    }
  }

  // ---------------------------------------------------------------------
  // What the view shows for an element

  function ElementName(e: Element): string
  {
    match e
    case TreeElement(t) => t.name
    case AspectElement(a) => a.name
    case AreaElement(r, _) => r.name
    case FacetElement(f, _) => f.name
  }

  function ElementUrl(e: Element): Option<string>
  {
    match e
    case TreeElement(t) => t.url
    case AspectElement(a) => a.url
    case AreaElement(r, _) => r.url
    case FacetElement(f, _) => f.url
  }

  /** `element.description or ""`. */
  function ElementDescription(e: Element): (d: string)
  {
    var description := match e
      case TreeElement(t) => t.description
      case AspectElement(a) => a.description
      case AreaElement(r, _) => r.description
      case FacetElement(f, _) => f.description;
    if description.Some? then description.value else ""
  }

  const PathMissing := "\U{26A0}\U{FE0F} - competence element path missing"

  /** The link view: the element's url around its path, its bare path, or a warning without a path. */
  function LinkOf(e: Element): (l: LinkView)
    ensures l.Anchor? <==> PathOf(e).Some? && Truthy(ElementUrl(e))
    ensures l.Anchor? ==> l.url == ElementUrl(e).value
    ensures PathOf(e).Some? ==> l.text == PathOf(e).value
  {
    match PathOf(e)
    case None => Plain(PathMissing)
    case Some(path) => if Truthy(ElementUrl(e)) then Anchor(ElementUrl(e).value, path) else Plain(path)
  }

  /** The name of the parent an area or facet heading shows. */
  function ParentName(e: Element): string
  {
    match e
    case AreaElement(_, a) => a.name
    case FacetElement(_, r) => r.name
    case _ => ""
  }

  /**
   * The markdown view: the description, under a heading with the parent's
   * name and the element's name in bold for areas and facets.
   */
  function MarkdownOf(e: Element): (md: string)
    ensures |md| >= |ElementDescription(e)| && md[|md| - |ElementDescription(e)|..] == ElementDescription(e)
    ensures (e.TreeElement? || e.AspectElement?) ==> md == ElementDescription(e)
    ensures (e.AreaElement? || e.FacetElement?) ==>
      |md| >= 4 + |ParentName(e)| && md[..4] == "### " && md[4..4 + |ParentName(e)|] == ParentName(e)
  {
    var description := ElementDescription(e);
    match e
    case AreaElement(area, aspect) =>
      "### " + aspect.name + "\n\n**" + area.name + "**:\n\n" + description
    case FacetElement(facet, area) =>
      "### " + area.name + "\n\n**" + facet.name + "**:\n\n" + description
    case _ => description
  }

  /**
   * What update_achievement_view shows for a path: the link and markdown of
   * the element the lenient lookup finds, None when it finds nothing, or the
   * error the lookup raises.
   */
  function Display(t: CompetenceTree, path: string): Result<Option<(LinkView, string)>, Error>
  {
    match LookupByPath(t, path, true)
    case Err(e) => Err(e)
    case Ok(None) => Ok(None)
    case Ok(Some(e)) => Ok(Some((LinkOf(e), MarkdownOf(e))))
  }

  /**
   * What showing the element at `path` does to the views, given the lookup's
   * outcome: the error raised, then the notices, the link and the markdown.
   */
  function ShowOutcome(d: Result<Option<(LinkView, string)>, Error>, path: string,
                       notices: seq<string>, link: LinkView, markdown: Option<string>)
    : (r: (Option<Error>, seq<string>, LinkView, Option<string>))
    ensures r.0.Some? <==> d.Err?
    ensures d.Ok? && d.value.None? ==> r.1 == notices + [InvalidPath] && r.3 == Some(MissingMarkdown(path))
    ensures d.Ok? && d.value.Some? ==> r.1 == notices && (r.2, r.3) == (d.value.value.0, Some(d.value.value.1))
    ensures d.Err? ==> r == (Some(d.error), notices, link, markdown)
  {
    match d
    case Err(e) => (Some(e), notices, link, markdown)
    case Ok(None) => (None, notices + [InvalidPath], link, Some(MissingMarkdown(path)))
    case Ok(Some(view)) => (None, notices, view.0, Some(view.1))
  }

  /** The entry of an area, at `tree/aspect`, shows the aspect itself. */
  lemma AreaEntryShowsAspect(t: CompetenceTree, i: nat)
    requires Stamped(t) && WellFormed(t) && i < |t.aspects|
    ensures var a := t.aspects[i];
      Display(t, AreaPath(t.id, a)) == Ok(Some((LinkOf(AspectElement(a)), ElementDescription(AspectElement(a)))))
  {
    assert AspectStamped(t.id, t.aspects[i]);
    LookupAspect(t, i, true);
  }

  /**
   * The entry of a facet, at `tree/aspect/facet`, looks the facet id up among
   * the aspect's areas: it shows the first area with that id, or nothing.
   */
  lemma FacetEntryLookup(t: CompetenceTree, i: nat, facetId: string)
    requires WellFormed(t) && i < |t.aspects| && '/' !in facetId
    ensures var a := t.aspects[i];
      LookupByPath(t, AreaPath(t.id, a) + "/" + facetId, true)
        == match First(a.areas, AreaKey, facetId)
           case None => Ok(None)
           case Some(j) => Ok(Some(AreaElement(a.areas[j], a)))
  {
    var a := t.aspects[i];
    assert AspectWellFormed(a);
    SplitPath3(t.id, a.id, facetId);
    FirstOfUnique(t.aspects, AspectKey, i);
  }

  /** A stamped facet's own path shows the facet under its area's name. */
  lemma FacetPathDisplay(t: CompetenceTree, i: nat, j: nat, k: nat)
    requires Stamped(t) && WellFormed(t)
    requires i < |t.aspects| && j < |t.aspects[i].areas| && k < |t.aspects[i].areas[j].facets|
    ensures var r := t.aspects[i].areas[j];
      var f := r.facets[k];
      Display(t, f.path.value) == Ok(Some((LinkOf(FacetElement(f, r)), MarkdownOf(FacetElement(f, r)))))
  {
    LookupFacet(t, i, j, k, true);
  }

  // ---------------------------------------------------------------------
  // Assessment

  class Assessment {
    var tree: CompetenceTree
    var learner: Learner
    var achievementIndex: int
    var total: int
    var progressBar: ProgressBar
    var screen: Screen
    var buttonRow: ButtonRow

    /**
     * Assessment(...): reset, then setup_ui. Showing the button row reads
     * the current achievement, which needs an achievement at index 0.
     */
    constructor(t: CompetenceTree, l: Learner)
      requires l.Valid()
      requires l.achievements.Some? ==> |l.achievements.value| > 0
      requires l.achievements.None? ==> |SetupEntries(t)| > 0
      modifies l
      ensures tree == t && learner == l && achievementIndex == 0
      ensures old(l.achievements).None? ==> l.achievements == Some(SetupEntries(t))
      ensures old(l.achievements).Some? ==> l.achievements == old(l.achievements)
      ensures l.Valid() && total == |l.List()| > 0
      ensures progressBar.total == total && progressBar.value == 0
      ensures screen.indexText == IndexStr(0, total) && screen.notices == []
      ensures buttonRow.owner == l && buttonRow.position == Some(0)
      ensures buttonRow.buttons == ButtonStates(LevelKeys(t.levels), l.List()[0].level)
    {
      tree := t;
      learner := l;
      achievementIndex := 0;
      total := 0;
      progressBar := new ProgressBar(0);
      screen := new Screen("");
      buttonRow := new ButtonRow([], l, None);
      new;
      Reset(t, l);
      SetupUi();
    }

    /** reset: take the tree and the learner, index 0, build the list when there is none, count it. */
    method Reset(t: CompetenceTree, l: Learner)
      requires l.Valid()
      modifies this, l
      ensures tree == t && learner == l && achievementIndex == 0
      ensures old(l.achievements).None? ==> l.achievements == Some(SetupEntries(t))
      ensures old(l.achievements).Some? ==> l.achievements == old(l.achievements)
      ensures l.Valid() && total == |l.List()|
      ensures progressBar == old(progressBar) && screen == old(screen) && buttonRow == old(buttonRow)
    {
      tree := t;
      learner := l;
      achievementIndex := 0;
      if l.achievements.None? {
        l.achievements := Some([]);
        assert l.List() == [];
        SetupAchievements();
        assert [] + SetupEntries(t) == SetupEntries(t);
      }
      total := |l.achievements.value|;
    }

    /** setup_achievements: per aspect and area the area entry, then one entry per facet. */
    method SetupAchievements()
      requires learner.Valid() && learner.achievements.Some?
      modifies learner
      ensures learner.achievements == Some(old(learner.List()) + SetupEntries(tree))
      ensures learner.Valid()
    {
      ghost var start := learner.List();
      var aspects := tree.aspects;
      assert start + TreeEntries(tree, 0) == start;
      for i := 0 to |aspects|
        invariant learner.Valid()
        invariant learner.achievements == Some(start + TreeEntries(tree, i))
      {
        AddAspectAchievements(aspects[i]);
        Associative(start, TreeEntries(tree, i), AspectEntries(tree.id, aspects[i], |aspects[i].areas|));
      }
    }

    /** The loop of setup_achievements over one aspect's areas. */
    method AddAspectAchievements(aspect: Aspect)
      requires learner.Valid() && learner.achievements.Some?
      modifies learner
      ensures learner.achievements == Some(old(learner.List()) + AspectEntries(tree.id, aspect, |aspect.areas|))
      ensures learner.Valid()
    {
      ghost var before := learner.List();
      var treeId := tree.id;
      var areas := aspect.areas;
      for j := 0 to |areas|
        invariant learner.Valid()
        invariant learner.achievements == Some(AfterAreas(before, treeId, aspect, j))
      {
        AddAreaAchievements(treeId + "/" + aspect.id, areas[j].facets);
      }
      AfterAreasAppends(before, treeId, aspect, |areas|);
    }

    /** The body of setup_achievements for one area: its entry, then one entry per facet. */
    method AddAreaAchievements(areaPath: string, facets: seq<Facet>)
      requires learner.Valid() && learner.achievements.Some?
      modifies learner
      ensures learner.achievements == Some(old(learner.List()) + AreaEntries(areaPath, facets, |facets|))
      ensures learner.Valid()
    {
      ghost var prefix := learner.List();
      AddAchievement(areaPath);
      assert AreaEntries(areaPath, facets, 0) == [NewAchievement(areaPath)];
      for k := 0 to |facets|
        invariant learner.Valid()
        invariant learner.achievements == Some(prefix + AreaEntries(areaPath, facets, k))
      {
        var facetPath := areaPath + "/" + facets[k].id;
        AddAchievement(facetPath);
        Associative(prefix, AreaEntries(areaPath, facets, k), [NewAchievement(facetPath)]);
      }
    }

    /** add_achievement: a fresh achievement at the path, added through the learner so that it is indexed. */
    method AddAchievement(path: string)
      requires learner.Valid() && learner.achievements.Some?
      modifies learner
      ensures learner.achievements == Some(old(learner.List()) + [NewAchievement(path)])
      ensures learner.Valid()
      ensures learner.AchievementsByPath() == old(learner.AchievementsByPath())[path := NewAchievement(path)]
    {
      learner.AddAchievement(NewAchievement(path));
    }

    /** setup_ui: the progress bar, the index label, empty views and the button row for the current achievement. */
    method SetupUi()
      requires learner.achievements.Some? && 0 <= achievementIndex < |learner.achievements.value|
      modifies this
      ensures tree == old(tree) && learner == old(learner) && achievementIndex == old(achievementIndex)
      ensures total == old(total)
      ensures fresh(progressBar) && progressBar.total == total && progressBar.value == 0
      ensures fresh(screen) && screen.indexText == IndexStr(achievementIndex, total) && screen.notices == []
      ensures fresh(buttonRow) && buttonRow.owner == learner && buttonRow.position == Some(achievementIndex)
      ensures buttonRow.buttons == ButtonStates(LevelKeys(tree.levels), learner.List()[achievementIndex].level)
    {
      var bar := new ProgressBar(total);
      var labelled := new Screen(IndexStr(achievementIndex, total));
      var row := new ButtonRow(tree.levels, learner, Some(achievementIndex));
      assert LevelOf(row.Current()) == learner.List()[achievementIndex].level;
      progressBar, screen, buttonRow := bar, labelled, row;
    }

    /** show_progress: the progress bar's total is `total`, its value the number of achievements with a level. */
    method ShowProgress()
      requires learner.achievements.Some?
      modifies progressBar
      ensures progressBar.total == total && progressBar.value == LevelCount(learner.List())
    {
      var count := CountLevels(learner.achievements.value);
      progressBar.total := total;
      progressBar.value := count;
    }

    /** The state of the views. */
    function View(): ViewState
      reads this, screen, buttonRow
    {
      ViewState(achievementIndex, screen.indexText, screen.notices, screen.link, screen.markdown,
                buttonRow.buttons, buttonRow.owner, buttonRow.position)
    }

    /**
     * What moving the views `v` by a clamped step `s` leaves: past the last
     * achievement only "Done!" is notified; otherwise the achievement at the
     * moved index is shown.
     */
    ghost predicate Moved(v: ViewState, s: int, raised: Option<Error>)
      reads this, screen, buttonRow, learner
      requires learner.achievements.Some?
    {
      if v.index + s >= |learner.List()| then
        raised.None? && View() == v.(notices := v.notices + [Done])
      else ShownAt(v, v.index + s, raised)
    }

    /**
     * What showing the achievement at `index` leaves of the views `v`: the
     * index and its label move, and then either current_achievement's error
     * is raised or the buttons follow the achievement there and the link and
     * markdown views show its element. Nothing else changes.
     */
    ghost predicate ShownAt(v: ViewState, index: int, raised: Option<Error>)
      reads this, screen, buttonRow, learner
      requires learner.achievements.Some?
    {
      var at := v.(index := index, indexText := IndexStr(index, total));
      match CurrentAchievement(learner.List(), index)
      case Err(e) => raised == Some(e) && View() == at
      case Ok(a) =>
        var o := ShowOutcome(Display(tree, a.path), a.path, v.notices, v.link, v.markdown);
        && raised == o.0
        && View() == at.(notices := o.1, link := o.2, markdown := o.3,
                         buttons := ButtonStates(v.buttons.Keys, a.level),
                         owner := learner, position := Some(index))
    }

    /**
     * What update_achievement_view(step) leaves of the views `v`: a step
     * below the first achievement notifies "first achievement reached!" and
     * becomes no step, then the views move.
     */
    ghost predicate Updated(v: ViewState, step: int, raised: Option<Error>)
      reads this, screen, buttonRow, learner
      requires learner.achievements.Some?
    {
      if v.index + step < 0 then Moved(v.(notices := v.notices + [FirstReached]), 0, raised)
      else Moved(v, step, raised)
    }

    /**
     * update_achievement_view: refresh the progress, clamp a step below the
     * first achievement, then either show the achievement at the new index
     * or notify "Done!". An error that current_achievement or the lookup
     * raises ends the update early.
     */
    method UpdateAchievementView(step: int) returns (raised: Option<Error>)
      requires learner.achievements.Some?
      modifies this, progressBar, screen, buttonRow
      ensures tree == old(tree) && learner == old(learner) && total == old(total)
      ensures progressBar == old(progressBar) && screen == old(screen) && buttonRow == old(buttonRow)
      ensures progressBar.total == total && progressBar.value == LevelCount(learner.List())
      ensures achievementIndex == StepIndex(old(achievementIndex), step, |learner.List()|)
      ensures Updated(old(View()), step, raised)
    {
      ShowProgress();
      if achievementIndex + step < 0 {
        // a step below the first achievement notifies and becomes 0
        screen.notices := screen.notices + [FirstReached];
        raised := MoveBy(0);
      } else {
        raised := MoveBy(step);
      }
    }

    /** The rest of update_achievement_view once the step is clamped: move and show, or notify "Done!". */
    method MoveBy(s: int) returns (raised: Option<Error>)
      requires learner.achievements.Some?
      modifies this, screen, buttonRow
      ensures tree == old(tree) && learner == old(learner) && total == old(total)
      ensures progressBar == old(progressBar) && screen == old(screen) && buttonRow == old(buttonRow)
      ensures achievementIndex == if old(achievementIndex) + s < |learner.List()| then old(achievementIndex) + s else old(achievementIndex)
      ensures Moved(old(View()), s, raised)
    {
      raised := None;
      if achievementIndex + s < |learner.achievements.value| {
        raised := MoveTo(achievementIndex + s);
      } else {
        screen.notices := screen.notices + [Done];
      }
    }

    /** The in-range branch of update_achievement_view: move to `index`, label it and show the achievement there. */
    method MoveTo(index: int) returns (raised: Option<Error>)
      requires learner.achievements.Some?
      modifies this, screen, buttonRow
      ensures tree == old(tree) && learner == old(learner) && total == old(total)
      ensures progressBar == old(progressBar) && screen == old(screen) && buttonRow == old(buttonRow)
      ensures achievementIndex == index
      ensures ShownAt(old(View()), index, raised)
    {
      ghost var v := View();
      raised := None;
      achievementIndex := index;
      ShowIndex();
      assert View() == v.(index := index, indexText := IndexStr(index, total));
      match CurrentAchievement(learner.achievements.value, index)
      case Err(e) =>
        raised := Some(e);
      case Ok(achievement) =>
        raised := ShowAchievement(achievement);
    }

    /** The index label of the current achievement; nothing else changes. */
    method ShowIndex()
      modifies screen
      ensures View() == old(View()).(indexText := IndexStr(achievementIndex, total))
    {
      screen.indexText := IndexStr(achievementIndex, total);
    }

    /** The shown branch of update_achievement_view: the buttons follow the achievement, the views its element. */
    method ShowAchievement(a: Achievement) returns (raised: Option<Error>)
      requires 0 <= achievementIndex
      modifies screen, buttonRow
      ensures var v := old(View());
        var o := ShowOutcome(Display(tree, a.path), a.path, v.notices, v.link, v.markdown);
        && raised == o.0
        && View() == v.(notices := o.1, link := o.2, markdown := o.3,
                        buttons := ButtonStates(v.buttons.Keys, a.level),
                        owner := learner, position := Some(achievementIndex))
    {
      buttonRow.owner := learner;
      buttonRow.position := Some(achievementIndex);
      buttonRow.SetButtonStates(Some(a));
      var shown := ShowOutcome(Display(tree, a.path), a.path, screen.notices, screen.link, screen.markdown);
      raised := shown.0;
      screen.notices := shown.1;
      screen.link := shown.2;
      screen.markdown := shown.3;
    }

    /**
     * ButtonRow.handle_selection with its call back: toggle the level of the
     * row's achievement, then update the view by the resulting step.
     */
    method HandleSelection(selected: int) returns (raised: Option<Error>)
      requires learner.achievements.Some?
      requires buttonRow.position.Some? && buttonRow.owner.achievements.Some?
      requires buttonRow.position.value < |buttonRow.owner.achievements.value|
      modifies this, progressBar, screen, buttonRow, buttonRow.owner
      ensures buttonRow == old(buttonRow) && learner == old(learner)
      ensures old(buttonRow.owner).achievements
           == Some(WithLevel(old(buttonRow.owner.List()), old(buttonRow.position.value),
                             Toggled(old(buttonRow.owner.List())[old(buttonRow.position.value)].level, selected)))
      ensures old(buttonRow.owner).achievementsByPath == old(buttonRow.owner.achievementsByPath)
      ensures old(learner.Valid()) ==> learner.Valid()
      ensures progressBar.total == total && progressBar.value == LevelCount(learner.List())
      ensures var level := Toggled(old(buttonRow.owner.List())[old(buttonRow.position.value)].level, selected);
        && achievementIndex == StepIndex(old(achievementIndex), StepAfter(level), |learner.List()|)
        && Updated(old(View()).(buttons := ButtonStates(old(buttonRow.buttons).Keys, level)), StepAfter(level), raised)
    {
      var step := buttonRow.HandleSelection(selected);
      raised := UpdateAchievementView(step);
    }
  }
}
