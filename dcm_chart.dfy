/**
 * The donut chart of a competence tree: a circle for the tree, an inner ring
 * of aspect segments sharing 360 degrees in proportion to their facet
 * counts, an outer ring in which each aspect's facets split its span
 * equally, and an optional legend. The chart is produced as the list of
 * drawing commands the generator issues, in order.
 */
module DcmChart {
  import opened Wrappers
  import opened DcmCore
  import opened CodedTrees
  import opened Sequences

  /** The canvas: its width, its total height and the height reserved for the legend. */
  datatype ChartConfig = ChartConfig(width: int, totalHeight: int, legendHeight: int)

  /** Centre and radii of the chart. */
  datatype Geometry = Geometry(cx: int, cy: int, treeRadius: real, aspectRadius: real, facetRadius: real)

  /** A ring segment: what the generator configures before drawing it. */
  datatype Segment = Segment(
    id: string, url: Option<string>, showAsPopup: bool, selected: bool,
    innerRadius: real, outerRadius: real, startAngleDeg: real, endAngleDeg: real)

  datatype Draw =
    | TreeCircle(x: int, y: int, radius: real)
    | DonutSegment(segment: Segment)
    | Legend

  /** Everything the loop body reads besides the aspect at hand. */
  datatype Context = Context(
    treeId: string, lookupUrl: Option<string>, geometry: Geometry,
    learner: Option<map<string, Achievement>>, quote: string -> string)

  function Min(a: int, b: int): int { if a <= b then a else b }

  /** The centre excludes the legend; Python's `//` on a positive divisor is Dafny's `/`. */
  function GeometryOf(config: ChartConfig): Geometry
  {
    var cx := config.width / 2;
    var cy := (config.totalHeight - config.legendHeight) / 2;
    var facetRadius := (Min(cx, cy) as real) * 0.9;
    Geometry(cx, cy, (cx as real) / 9.0, facetRadius / 3.0, facetRadius)
  }

  /** The tree's own lookup url when truthy, else the one given. */
  function EffectiveLookupUrl(treeLookupUrl: Option<string>, lookupUrl: Option<string>): Option<string>
  {
    if Truthy(treeLookupUrl) then treeLookupUrl else lookupUrl
  }

  /** A segment's url: the element's own url when truthy, else its description page under the lookup url, if there is one. */
  function SegmentUrl(own: Option<string>, lookupUrl: Option<string>, descriptionPath: string): Option<string>
  {
    if Truthy(own) then own
    else if lookupUrl.Some? then Some(lookupUrl.value + "/description/" + descriptionPath)
    else None
  }

  /** A facet is marked selected when the learner has an achievement at its path with a truthy level. */
  predicate Selected(learner: Option<map<string, Achievement>>, facet: Facet)
  {
    && learner.Some?
    && facet.path.Some?
    && facet.path.value in learner.value
    && learner.value[facet.path.value].level.Some?
    && learner.value[facet.path.value].level.value != 0
  }

  // ---------------------------------------------------------------------
  // The angular partition

  /** Total number of facets of the aspects. */
  function FacetCount(aspects: seq<(string, CodedAspect)>): nat
  {
    if aspects == [] then 0
    else FacetCount(aspects[..|aspects| - 1]) + |aspects[|aspects| - 1].1.facets|
  }

  /** Where aspect `i` starts: 360 degrees times the share of the facets before it. */
  function AspectStart(aspects: seq<(string, CodedAspect)>, i: nat): real
    requires i <= |aspects|
  {
    var total := FacetCount(aspects);
    if total == 0 then 0.0 else AspectAngle(FacetCount(aspects[..i]), total)
  }

  /** `(num_facets_in_aspect / total_facets) * 360`. */
  function AspectAngle(n: nat, total: nat): real
    requires total > 0
  {
    ((n as real) / (total as real)) * 360.0
  }

  lemma {:induction false} FacetCountPrefix(aspects: seq<(string, CodedAspect)>, i: nat)
    requires i <= |aspects|
    ensures FacetCount(aspects[..i]) <= FacetCount(aspects)
    decreases |aspects|
  {
    if i < |aspects| {
      var init := aspects[..|aspects| - 1];
      FacetCountPrefix(init, i);
      assert init[..i] == aspects[..i];
    } else {
      assert aspects[..i] == aspects;
    }
  }

  lemma FacetCountStep(aspects: seq<(string, CodedAspect)>, i: nat)
    requires i < |aspects|
    ensures FacetCount(aspects[..i + 1]) == FacetCount(aspects[..i]) + |aspects[i].1.facets|
  {
    assert aspects[..i + 1][..i] == aspects[..i];
  }

  /** An aspect with facets means there are facets at all, so the division is never by zero. */
  lemma NonEmptyAspectMeansFacets(aspects: seq<(string, CodedAspect)>, i: nat)
    requires i < |aspects| && |aspects[i].1.facets| > 0
    ensures FacetCount(aspects) > 0
  {
    FacetCountStep(aspects, i);
    FacetCountPrefix(aspects, i + 1);
  }

  /** Shares of the circle add up like the facet counts they stand for. */
  lemma AngleAdd(before: nat, n: nat, total: nat)
    requires total > 0
    ensures AspectAngle(before + n, total) == AspectAngle(before, total) + AspectAngle(n, total)
  {
    var t := total as real;
    DivAdd(before as real, n as real, t);
  }

  lemma DivAdd(x: real, y: real, t: real)
    requires t > 0.0
    ensures (x + y) / t == x / t + y / t
  {
  }

  /** All facets make the full circle. */
  lemma AngleFull(total: nat)
    requires total > 0
    ensures AspectAngle(total, total) == 360.0
  {
    DivSelf(total as real);
  }

  lemma DivSelf(t: real)
    requires t > 0.0
    ensures t / t == 1.0
  {
  }

  /** A drawn aspect ends where the next aspect starts. */
  lemma AspectEndIsNextStart(aspects: seq<(string, CodedAspect)>, i: nat)
    requires i < |aspects| && |aspects[i].1.facets| > 0
    ensures FacetCount(aspects) > 0
    ensures AspectStart(aspects, i) + AspectAngle(|aspects[i].1.facets|, FacetCount(aspects))
         == AspectStart(aspects, i + 1)
  {
    NonEmptyAspectMeansFacets(aspects, i);
    var before := FacetCount(aspects[..i]);
    var n := |aspects[i].1.facets|;
    var total := FacetCount(aspects);
    FacetCountStep(aspects, i);
    AngleAdd(before, n, total);
  }

  /** An aspect without facets does not move the start angle. */
  lemma EmptyAspectKeepsStart(aspects: seq<(string, CodedAspect)>, i: nat)
    requires i < |aspects| && |aspects[i].1.facets| == 0
    ensures AspectStart(aspects, i + 1) == AspectStart(aspects, i)
  {
    FacetCountStep(aspects, i);
  }

  /** The first aspect starts at 0 degrees. */
  lemma StartsAtZero(aspects: seq<(string, CodedAspect)>)
    ensures AspectStart(aspects, 0) == 0.0
  {
    assert aspects[..0] == [];
  }

  /** When there are facets, the last aspect ends at 360 degrees. */
  lemma EndsAtFullCircle(aspects: seq<(string, CodedAspect)>)
    requires FacetCount(aspects) > 0
    ensures AspectStart(aspects, |aspects|) == 360.0
  {
    assert aspects[..|aspects|] == aspects;
    AngleFull(FacetCount(aspects));
  }

  /** The span of aspect `i`: its share of 360 degrees, nothing when it has no facets. */
  function Span(aspects: seq<(string, CodedAspect)>, i: nat): real
    requires i < |aspects|
  {
    var n := |aspects[i].1.facets|;
    if n == 0 then 0.0 else (NonEmptyAspectMeansFacets(aspects, i); AspectAngle(n, FacetCount(aspects)))
  }

  /** The running start angle: the spans of the first `k` aspects added up. */
  function SpanSum(aspects: seq<(string, CodedAspect)>, k: nat): real
    requires k <= |aspects|
  {
    if k == 0 then 0.0 else SpanSum(aspects, k - 1) + Span(aspects, k - 1)
  }

  /** The spans add up to the start of the next aspect; over all aspects, to the full circle. */
  lemma {:induction false} SpanSumIsStart(aspects: seq<(string, CodedAspect)>, k: nat)
    requires k <= |aspects|
    ensures SpanSum(aspects, k) == AspectStart(aspects, k)
    ensures k == |aspects| && FacetCount(aspects) > 0 ==> SpanSum(aspects, k) == 360.0
  {
    if k == 0 {
      StartsAtZero(aspects);
    } else {
      SpanSumIsStart(aspects, k - 1);
      if |aspects[k - 1].1.facets| == 0 {
        EmptyAspectKeepsStart(aspects, k - 1);
      } else {
        AspectEndIsNextStart(aspects, k - 1);
      }
    }
    if k == |aspects| && FacetCount(aspects) > 0 {
      EndsAtFullCircle(aspects);
    }
  }

  // ---------------------------------------------------------------------
  // The drawing commands

  function AspectSegment(ctx: Context, code: string, aspect: CodedAspect, start: real, end: real): Segment
  {
    Segment(
      code,
      SegmentUrl(aspect.url, ctx.lookupUrl, ctx.quote(ctx.treeId) + "/" + ctx.quote(code)),
      aspect.url.None?, false,
      ctx.geometry.treeRadius, ctx.geometry.aspectRadius, start, end)
  }

  function FacetSegment(ctx: Context, code: string, facet: Facet, start: real, end: real): Segment
  {
    Segment(
      facet.id,
      SegmentUrl(facet.url, ctx.lookupUrl,
                 ctx.quote(ctx.treeId) + "/" + ctx.quote(code) + "/" + ctx.quote(facet.id)),
      facet.url.None?, Selected(ctx.learner, facet),
      ctx.geometry.aspectRadius, ctx.geometry.facetRadius, start, end)
  }

  /** The running start angle of facet `j`: `per` added `j` times to `start`. */
  function FacetStart(start: real, per: real, j: nat): real
  {
    if j == 0 then start else FacetStart(start, per, j - 1) + per
  }

  lemma {:induction false} FacetStartIsMultiple(start: real, per: real, j: nat)
    ensures FacetStart(start, per, j) == start + (j as real) * per
  {
    if j > 0 {
      FacetStartIsMultiple(start, per, j - 1);
      assert ((j - 1) as real) * per + per == (j as real) * per;
    }
  }

  /** The first `j` facets, each `per` degrees wide, contiguous from `start`. */
  function FacetSegments(ctx: Context, code: string, facets: seq<Facet>, start: real, per: real, j: nat): (r: seq<Draw>)
    requires j <= |facets|
    ensures |r| == j
  {
    if j == 0 then []
    else
      var s := FacetStart(start, per, j - 1);
      FacetSegments(ctx, code, facets, start, per, j - 1) + [DonutSegment(FacetSegment(ctx, code, facets[j - 1], s, s + per))]
  }

  /** Facet `k` spans `[start + k*per, start + (k+1)*per]`. */
  lemma {:induction false} FacetSegmentAngles(ctx: Context, code: string, facets: seq<Facet>, start: real, per: real, j: nat, k: nat)
    requires k < j <= |facets|
    ensures var seg := FacetSegments(ctx, code, facets, start, per, j)[k];
      seg.DonutSegment?
      && seg.segment.id == facets[k].id
      && seg.segment.startAngleDeg == start + (k as real) * per
      && seg.segment.endAngleDeg == start + ((k + 1) as real) * per
  {
    if k < j - 1 {
      FacetSegmentAngles(ctx, code, facets, start, per, j - 1, k);
    } else {
      FacetStartIsMultiple(start, per, k);
      FacetStartIsMultiple(start, per, k + 1);
    }
  }

  /** The facets of a drawn aspect share its span equally: the last one ends where the aspect ends. */
  lemma LastFacetEndsWithAspect(start: real, angle: real, n: nat)
    requires n > 0
    ensures FacetStart(start, angle / (n as real), n) == start + angle
  {
    FacetStartIsMultiple(start, angle / (n as real), n);
  }

  /** The drawing commands of aspect `i`: none when it has no facets. */
  function AspectBlock(ctx: Context, aspects: seq<(string, CodedAspect)>, i: nat): (r: seq<Draw>)
    requires i < |aspects|
  {
    var code := aspects[i].0;
    var aspect := aspects[i].1;
    var n := |aspect.facets|;
    if n == 0 then []
    else
      NonEmptyAspectMeansFacets(aspects, i);
      var start := SpanSum(aspects, i);
      var angle := AspectAngle(n, FacetCount(aspects));
      [DonutSegment(AspectSegment(ctx, code, aspect, start, start + angle))]
        + FacetSegments(ctx, code, aspect.facets, start, angle / (n as real), n)
  }

  /** The drawing commands of the first `k` aspects, in order. */
  function AspectBlocks(ctx: Context, aspects: seq<(string, CodedAspect)>, k: nat): (r: seq<Draw>)
    requires k <= |aspects|
  {
    if k == 0 then [] else AspectBlocks(ctx, aspects, k - 1) + AspectBlock(ctx, aspects, k - 1)
  }

  function ContextOf(tree: CodedTree, learner: Option<map<string, Achievement>>, config: ChartConfig,
                     lookupUrl: Option<string>, quote: string -> string): Context
  {
    Context(tree.id, EffectiveLookupUrl(tree.lookupUrl, lookupUrl), GeometryOf(config), learner, quote)
  }

  /** The inner loop of generate_svg_markup: one segment per facet, each `per` degrees, contiguous from `start`. */
  method DrawFacets(ctx: Context, code: string, facets: seq<Facet>, start: real, per: real)
    returns (draws: seq<Draw>)
    ensures draws == FacetSegments(ctx, code, facets, start, per, |facets|)
  {
    draws := [];
    var facetStartAngle := start;
    var j := 0;
    while j < |facets|
      invariant 0 <= j <= |facets|
      invariant facetStartAngle == FacetStart(start, per, j)
      invariant draws == FacetSegments(ctx, code, facets, start, per, j)
    {
      var facet := facets[j];
      draws := draws + [DonutSegment(FacetSegment(ctx, code, facet, facetStartAngle, facetStartAngle + per))];
      facetStartAngle := facetStartAngle + per;
      j := j + 1;
    }
  }

  /** One more aspect: its block after the earlier ones, its span after the earlier spans. */
  lemma BlocksStep(ctx: Context, aspects: seq<(string, CodedAspect)>, i: nat)
    requires i < |aspects|
    ensures AspectBlocks(ctx, aspects, i + 1) == AspectBlocks(ctx, aspects, i) + AspectBlock(ctx, aspects, i)
    ensures SpanSum(aspects, i + 1) == SpanSum(aspects, i) + Span(aspects, i)
    ensures |aspects[i].1.facets| == 0 ==> AspectBlock(ctx, aspects, i) == [] && Span(aspects, i) == 0.0
  {
  }

  /**
   * The loop body of generate_svg_markup for an aspect with facets: its own
   * segment, its share of the circle, then its facets' segments.
   */
  method DrawAspect(ctx: Context, aspects: seq<(string, CodedAspect)>, i: nat, aspectStartAngle: real, totalFacets: nat)
    returns (draws: seq<Draw>, aspectAngle: real)
    requires i < |aspects| && |aspects[i].1.facets| > 0
    requires totalFacets == FacetCount(aspects) && aspectStartAngle == SpanSum(aspects, i)
    ensures draws == AspectBlock(ctx, aspects, i)
    ensures aspectAngle == Span(aspects, i)
  {
    var code := aspects[i].0;
    var aspect := aspects[i].1;
    var n := |aspect.facets|;
    NonEmptyAspectMeansFacets(aspects, i);
    aspectAngle := AspectAngle(n, totalFacets);
    var head := DonutSegment(AspectSegment(ctx, code, aspect, aspectStartAngle, aspectStartAngle + aspectAngle));
    var anglePerFacet := aspectAngle / (n as real);
    var facetDraws := DrawFacets(ctx, code, aspect.facets, aspectStartAngle, anglePerFacet);
    draws := [head] + facetDraws;
  }

  /**
   * One pass of the aspect loop of generate_svg_markup: an aspect without
   * facets is skipped; any other is drawn after what is drawn so far and
   * advances the start angle by its span.
   */
  method AspectPass(ctx: Context, aspects: seq<(string, CodedAspect)>, i: nat, circle: Draw,
                    drawn: seq<Draw>, aspectStartAngle: real, totalFacets: nat)
    returns (draws: seq<Draw>, nextStartAngle: real)
    requires i < |aspects| && totalFacets == FacetCount(aspects)
    requires aspectStartAngle == SpanSum(aspects, i) && drawn == [circle] + AspectBlocks(ctx, aspects, i)
    ensures nextStartAngle == SpanSum(aspects, i + 1)
    ensures draws == [circle] + AspectBlocks(ctx, aspects, i + 1)
  {
    BlocksStep(ctx, aspects, i);
    draws, nextStartAngle := drawn, aspectStartAngle;
    if |aspects[i].1.facets| > 0 {
      var aspectDraws, aspectAngle := DrawAspect(ctx, aspects, i, aspectStartAngle, totalFacets);
      Associative([circle], AspectBlocks(ctx, aspects, i), aspectDraws);
      draws := drawn + aspectDraws;
      nextStartAngle := aspectStartAngle + aspectAngle;
    }
  }

  /**
   * generate_svg_markup: the tree circle, then for every aspect with facets
   * its segment followed by its facets' segments, then the legend when there
   * is room for one. `learner` is the learner's achievements_by_path.
   */
  method GenerateSvgMarkup(tree: CodedTree, learner: Option<map<string, Achievement>>, config: ChartConfig,
                           lookupUrl: Option<string>, quote: string -> string)
    returns (draws: seq<Draw>)
    ensures var ctx := ContextOf(tree, learner, config, lookupUrl, quote);
      draws == [TreeCircle(ctx.geometry.cx, ctx.geometry.cy, ctx.geometry.treeRadius)]
               + AspectBlocks(ctx, tree.aspects, |tree.aspects|)
               + (if config.legendHeight > 0 then [Legend] else [])
  {
    var ctx := ContextOf(tree, learner, config, lookupUrl, quote);
    var cx := config.width / 2;
    var cy := (config.totalHeight - config.legendHeight) / 2;
    var treeRadius := (cx as real) / 9.0;
    draws := [TreeCircle(cx, cy, treeRadius)];
    var facetRadius := (Min(cx, cy) as real) * 0.9;
    var aspectRadius := facetRadius / 3.0;
    assert ctx.geometry == Geometry(cx, cy, treeRadius, aspectRadius, facetRadius);
    var circle := TreeCircle(ctx.geometry.cx, ctx.geometry.cy, ctx.geometry.treeRadius);
    assert draws == [circle];
    var aspects := tree.aspects;
    // the sum over all aspects of their facet counts
    var totalFacets := FacetCount(aspects);
    var aspectStartAngle: real := 0.0;
    var i := 0;
    while i < |aspects|
      invariant 0 <= i <= |aspects|
      invariant aspectStartAngle == SpanSum(aspects, i)
      invariant draws == [circle] + AspectBlocks(ctx, aspects, i)
    {
      draws, aspectStartAngle := AspectPass(ctx, aspects, i, circle, draws, aspectStartAngle, totalFacets);
      i := i + 1;
    }
    assert draws == [circle] + AspectBlocks(ctx, tree.aspects, |tree.aspects|);
    if config.legendHeight > 0 {
      draws := draws + [Legend];
    }
  }

  // ---------------------------------------------------------------------
  // Properties of the drawn segments

  /** Aspect segments span the inner ring, facet segments the outer ring. */
  lemma SegmentRadii(ctx: Context, code: string, aspect: CodedAspect, facet: Facet, s: real, e: real)
    ensures AspectSegment(ctx, code, aspect, s, e).innerRadius == ctx.geometry.treeRadius
    ensures AspectSegment(ctx, code, aspect, s, e).outerRadius == ctx.geometry.aspectRadius
    ensures FacetSegment(ctx, code, facet, s, e).innerRadius == ctx.geometry.aspectRadius
    ensures FacetSegment(ctx, code, facet, s, e).outerRadius == ctx.geometry.facetRadius
  {
  }

  /** The aspect ring's outer radius is a third of the facet ring's, which keeps a tenth of a margin. */
  lemma GeometryRatios(config: ChartConfig)
    ensures var g := GeometryOf(config);
      && g.cx == config.width / 2
      && g.cy == (config.totalHeight - config.legendHeight) / 2
      && g.treeRadius * 9.0 == g.cx as real
      && g.aspectRadius * 3.0 == g.facetRadius
      && g.facetRadius == 0.9 * (if g.cx <= g.cy then g.cx else g.cy) as real
  {
  }

  /**
   * A segment opens its element as a popup exactly when the element has no
   * url of its own; its url is then the description page under the lookup
   * url, or none without a lookup url. An own url that is empty counts as
   * missing for the link but not for the popup.
   */
  lemma FacetUrlRule(ctx: Context, code: string, facet: Facet, s: real, e: real)
    ensures var seg := FacetSegment(ctx, code, facet, s, e);
      && (seg.showAsPopup <==> facet.url.None?)
      && (Truthy(facet.url) ==> seg.url == facet.url)
      && (!Truthy(facet.url) && ctx.lookupUrl.Some? ==>
            seg.url == Some(ctx.lookupUrl.value + "/description/"
                            + (ctx.quote(ctx.treeId) + "/" + ctx.quote(code) + "/" + ctx.quote(facet.id))))
      && (!Truthy(facet.url) && ctx.lookupUrl.None? ==> seg.url.None?)
  {
  }

  lemma AspectUrlRule(ctx: Context, code: string, aspect: CodedAspect, s: real, e: real)
    ensures var seg := AspectSegment(ctx, code, aspect, s, e);
      && seg.id == code
      && (seg.showAsPopup <==> aspect.url.None?)
      && (Truthy(aspect.url) ==> seg.url == aspect.url)
      && (!Truthy(aspect.url) && ctx.lookupUrl.Some? ==>
            seg.url == Some(ctx.lookupUrl.value + "/description/" + (ctx.quote(ctx.treeId) + "/" + ctx.quote(code))))
      && (!Truthy(aspect.url) && ctx.lookupUrl.None? ==> seg.url.None?)
  {
  }

  /** The tree's own lookup url wins when truthy. */
  lemma LookupUrlChoice(tree: CodedTree, learner: Option<map<string, Achievement>>, config: ChartConfig,
                        lookupUrl: Option<string>, quote: string -> string)
    ensures ContextOf(tree, learner, config, lookupUrl, quote).lookupUrl
         == if Truthy(tree.lookupUrl) then tree.lookupUrl else lookupUrl
  {
  }

  /** A facet is selected iff the learner has an achievement at its path whose level is set and not 0. */
  lemma SelectedRule(ctx: Context, code: string, facet: Facet, s: real, e: real)
    ensures FacetSegment(ctx, code, facet, s, e).selected <==>
      && ctx.learner.Some? && facet.path.Some? && facet.path.value in ctx.learner.value
      && ctx.learner.value[facet.path.value].level.Some? && ctx.learner.value[facet.path.value].level.value != 0
  {
  }

  /** The legend, when drawn, is the last command; without room for it there is none. */
  lemma LegendLast(tree: CodedTree, learner: Option<map<string, Achievement>>, config: ChartConfig,
                   lookupUrl: Option<string>, quote: string -> string, draws: seq<Draw>)
    requires var ctx := ContextOf(tree, learner, config, lookupUrl, quote);
      draws == [TreeCircle(ctx.geometry.cx, ctx.geometry.cy, ctx.geometry.treeRadius)]
               + AspectBlocks(ctx, tree.aspects, |tree.aspects|)
               + (if config.legendHeight > 0 then [Legend] else [])
    ensures draws[|draws| - 1] == Legend <==> config.legendHeight > 0
    ensures Legend in draws <==> config.legendHeight > 0
  {
    var ctx := ContextOf(tree, learner, config, lookupUrl, quote);
    var blocks := AspectBlocks(ctx, tree.aspects, |tree.aspects|);
    BlocksAreSegments(ctx, tree.aspects, |tree.aspects|);
    assert Legend !in blocks;
  }

  /** Between the tree circle and the legend there are only ring segments. */
  lemma {:induction false} BlocksAreSegments(ctx: Context, aspects: seq<(string, CodedAspect)>, k: nat)
    requires k <= |aspects|
    ensures forall m :: 0 <= m < |AspectBlocks(ctx, aspects, k)| ==> AspectBlocks(ctx, aspects, k)[m].DonutSegment?
  {
    if k > 0 {
      BlocksAreSegments(ctx, aspects, k - 1);
      BlockIsSegments(ctx, aspects, k - 1);
      SegmentsAppend(AspectBlocks(ctx, aspects, k - 1), AspectBlock(ctx, aspects, k - 1));
    }
  }

  lemma SegmentsAppend(a: seq<Draw>, b: seq<Draw>)
    requires forall m :: 0 <= m < |a| ==> a[m].DonutSegment?
    requires forall m :: 0 <= m < |b| ==> b[m].DonutSegment?
    ensures forall m :: 0 <= m < |a + b| ==> (a + b)[m].DonutSegment?
  {
  }

  lemma BlockIsSegments(ctx: Context, aspects: seq<(string, CodedAspect)>, i: nat)
    requires i < |aspects|
    ensures forall m :: 0 <= m < |AspectBlock(ctx, aspects, i)| ==> AspectBlock(ctx, aspects, i)[m].DonutSegment?
  {
    var a := aspects[i];
    var n := |a.1.facets|;
    if n > 0 {
      NonEmptyAspectMeansFacets(aspects, i);
      var start := SpanSum(aspects, i);
      var per := AspectAngle(n, FacetCount(aspects)) / (n as real);
      var fs := FacetSegments(ctx, a.0, a.1.facets, start, per, n);
      var b := AspectBlock(ctx, aspects, i);
      assert b == [b[0]] + fs;
      forall m | 0 <= m < n ensures fs[m].DonutSegment? {
        FacetSegmentAngles(ctx, a.0, a.1.facets, start, per, n, m);
      }
    }
  }
}
