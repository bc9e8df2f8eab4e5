# Dynamic Competence Map core, modelled in Dafny

This project models the core of the Dynamic Competence Map (dcm) package and proves properties about it. A
competence tree is made of aspects, areas and facets. A learner holds a list of achievements (each a
level, a score and a date) at element paths such as `tree/aspect/area/facet`; several achievements
may share a path, and the learner's by-path index keeps the last of them. A donut chart draws the tree as
concentric rings. Two stepper UIs let a learner walk through their achievements and pick a level for
each one. An xAPI (Experience API) converter turns a list of learning-record statements into a learner.

Modules, one per source file:

- `DcmCore` (dcm/dcm_core.py):
  - path stamping by `CompetenceTree.__post_init__`;
  - `lookup_by_path`, with its lenient and strict error paths;
  - `remove_none_values` on JSON values;
  - `is_valid_definition`;
  - the `Achievement` id properties;
  - the `Learner` class, with its achievement list and its by-path index.
- `Svg` (dcm/svg.py): the `SVG` accumulator. It is a class whose `elements` list the methods append to. The markup of each element is a function.
- `DcmChart` (dcm/dcm_chart.py): the angular partition of `generate_svg_markup`. The chart's output is the sequence of drawing commands it issues. Each aspect gets an angle proportional to its number of facets, and each facet gets an equal share of its aspect's angle.
- `Stepper`: the parts that dcm/dcm_assessment.py and dcm/dcm_sela.py share:
  - the `ButtonRow` class, whose button states are a map from level to shown/hidden;
  - the level toggle;
  - the progress count;
  - `current_achievement`;
  - the index label.
- `DcmAssessment` (dcm/dcm_assessment.py) and `DcmSela` (dcm/dcm_sela.py): the `Assessment` and `SelfAssessment` classes as state machines over the learner, the achievement index and the screen. The screen holds the index label, the link, the markdown and the notices shown.
- `XApi` (dcm/xapi.py): `to_learner`, as a loop over the statement entries that is proved against a fold over prefixes.
- `Text`, `Wrappers`, `Sequences`, `CodedTrees`: Python's `str.split`, `"/".join`, `strip` and `f"{n:2}"` formatting, plus Option/Result and the keyed tree shape read by the chart and the self assessment.

Some behaviours are modelled as the code has them:

- `Assessment.setup_achievements` builds area entries `tree/aspect` and facet entries `tree/aspect/facet`, without the area id. A facet entry therefore resolves, through `lookup_by_path`, as an area lookup keyed by the facet id (`DcmAssessment.FacetEntryLookup`). The model keeps these paths.
- `current_achievement` guards with `index > len`, not `index >= len`. An index equal to the length therefore reaches the list access and raises an IndexError, not the ValueError of the guard. `Stepper.CurrentAchievement` keeps the two errors apart.
- `SelfAssessment.setup_achievements` appends to the learner's list directly. The learner's by-path index is left unchanged, and `DcmSela.SelfAssessment.SetupAchievements` states this.
- The chart and the self assessment read `competence_tree.competence_aspects`, a map from aspect code to aspect with a facet list. dcm/dcm_core.py does not define that shape. It is modelled as `CodedTrees.CodedTree`, whose aspects are kept in insertion order.

## Model

| member | source | states |
|---|---|---|
| `DcmCore.PostInit` | dcm/dcm_core.py:153-170 | the stamped tree has the same shape and ids; the tree's path is its id, and each aspect, area and facet path is the `/`-join of the ids above it |
| `DcmCore.First` | dcm/dcm_core.py:212 | `next(...)` over a list: the index of the first element with the id, or None when there is none |
| `DcmCore.FirstOfUnique` | dcm/dcm_core.py:212 | with unique ids, the first match for an element's id is that element |
| `DcmCore.Resolve` | dcm/dcm_core.py:199-228 | the walk down the split path reports a wrong tree exactly when the first segment is not the tree id |
| `DcmCore.LookupByPath` | dcm/dcm_core.py:177-230 | a ValueError only when not lenient; a None result only when lenient; the only other error is the AttributeError of reading `area.facets` when the area is missing |
| `DcmCore.LookupTree` | dcm/dcm_core.py:207-208 | on a stamped tree with unique ids, looking up the tree's own path returns the tree |
| `DcmCore.LookupAspect` | dcm/dcm_core.py:209-215 | looking up an aspect's stamped path returns that aspect |
| `DcmCore.LookupArea` | dcm/dcm_core.py:216-221 | looking up an area's stamped path returns that area with its parent aspect |
| `DcmCore.LookupFacet` | dcm/dcm_core.py:222-228 | looking up a facet's stamped path returns that facet with its parent area |
| `DcmCore.LookupHitHasPath` | dcm/dcm_core.py:177-230 | on a stamped tree, any element found for a path of at most four segments carries exactly that path |
| `DcmCore.ResolveHitHasJoinedPath` | dcm/dcm_core.py:199-228 | an element found from segments carries the `/`-join of those segments |
| `DcmCore.LookupFindsFirstAspect` | dcm/dcm_core.py:212-215 | with duplicate aspect ids, `tree/aspect` finds the first aspect with that id |
| `DcmCore.LookupWrongTree` | dcm/dcm_core.py:203-206 | a wrong first segment gives None when lenient and ValueError("invalid tree_id for lookup …") when strict |
| `DcmCore.ResolveIgnoresExtraSegments` | dcm/dcm_core.py:199-228 | segments after the fourth are never read |
| `DcmCore.LookupUnknownAreaRaises` | dcm/dcm_core.py:216-225 | an unknown area id with a fourth segment raises AttributeError, whether lenient or not |
| `DcmCore.RemoveNoneValues` | dcm/dcm_core.py:239-249 | null stays null and nothing else becomes null; lists keep their length; objects stay objects; scalars are unchanged |
| `DcmCore.RemoveNoneInItems` | dcm/dcm_core.py:247-248 | each list item is cleaned on its own, in place |
| `DcmCore.RemoveNoneInEntries` | dcm/dcm_core.py:243-246 | no kept entry has a null value, and no entry is added |
| `DcmCore.KeptPositions` | dcm/dcm_core.py:243-246 | the positions of the entries with a non-null value, strictly increasing, every such position included |
| `DcmCore.RemoveNoneInEntriesIsFilter` | dcm/dcm_core.py:243-246 | the cleaned entries are exactly the entries at those positions, in their original order, each value cleaned |
| `DcmCore.RemoveNoneInEntriesKeeps` | dcm/dcm_core.py:243-246 | every entry whose value is not null survives, with its value cleaned |
| `DcmCore.RemoveNoneValuesIsNoneFree` | dcm/dcm_core.py:239-249 | the result has no null value in any object, at any depth |
| `DcmCore.RemoveNoneInItemsIsNoneFree` | dcm/dcm_core.py:247-248 | every cleaned list item is free of nulls in objects |
| `DcmCore.RemoveNoneInEntriesIsNoneFree` | dcm/dcm_core.py:243-246 | every kept entry's value is free of nulls in objects |
| `DcmCore.RemoveNoneValuesKeepsNoneFree` | dcm/dcm_core.py:239-249 | a value with no nulls in objects is returned unchanged |
| `DcmCore.RemoveNoneInEntriesKeepsNoneFree` | dcm/dcm_core.py:243-246 | entries that are already clean are returned unchanged |
| `DcmCore.RemoveNoneValuesIdempotent` | dcm/dcm_core.py:239-249 | cleaning twice equals cleaning once |
| `DcmCore.AllKeys` | dcm/dcm_core.py:518 | `all(key in data …)`: true iff every key is contained; TypeError exactly when the first key cannot be tested (data that is not an object, list or string); true for no keys |
| `DcmCore.IsValidDefinition` | dcm/dcm_core.py:516-518 | TypeError exactly when `required_keys` is None or the data cannot be tested for its first key; true for an empty key list; true iff every required key is present |
| `DcmCore.TreeId` | dcm/dcm_core.py:324-327 | the tree id is the prefix of the path up to the first `/` and contains no `/` |
| `DcmCore.SplitHead` | dcm/dcm_core.py:326-327 | the first split segment is a prefix of the string that ends at the first separator |
| `DcmCore.AspectId` | dcm/dcm_core.py:329-332 | an aspect id exists exactly when the path contains `/` |
| `DcmCore.SplitSingle` | dcm/dcm_core.py:331-332 | splitting gives one segment exactly when the separator is absent |
| `DcmCore.AchievementIds` | dcm/dcm_core.py:324-342 | for a path joined from segments without `/`, the tree, aspect, area and facet ids are the segments in order, or None when absent |
| `DcmCore.IndexView` | dcm/dcm_core.py:361-364 | the by-path map seen as achievements: keyed by path, each achievement under its own path |
| `DcmCore.IndexViewAppend` | dcm/dcm_core.py:376-378 | appending an achievement and indexing it under its path keeps the index sound and maps that path to it |
| `DcmCore.LastIndexByPathIsLast` | dcm/dcm_core.py:360-364 | the index built at construction has exactly the achievements' paths, and each path maps to its last occurrence |
| `DcmCore.LastIndexByPathOnlyPaths` | dcm/dcm_core.py:360-364 | the index depends on the paths only, so changing levels leaves it unchanged |
| `DcmCore.Learner.constructor` | dcm/dcm_core.py:360-364 | the by-path index maps each path to the last achievement with that path, or is empty without achievements |
| `DcmCore.Learner.AddAchievement` | dcm/dcm_core.py:376-378 | appends to the list and indexes the new achievement under its path; the index stays sound |
| `DcmCore.Learner.GetCompetenceTreeIds` | dcm/dcm_core.py:380-402 | TypeError exactly when the achievement list is None; otherwise no duplicates, and an id is returned iff it is the tree id of some achievement |
| `Text.Split` | dcm/dcm_core.py:199 | `str.split`: the segments contain no separator and join back to the string |
| `Text.SplitJoin` | dcm/dcm_core.py:199 | splitting the join of separator-free segments gives the segments back |
| `Text.PadLeft` | dcm/dcm_assessment.py:195 | `f"{n:2}"`: the field is as wide as the minimum width, or the text if that is longer |
| `Text.PadLeftAligned` | dcm/dcm_assessment.py:195 | the field ends with the text, right-aligned, and is spaces before it |
| `Svg.SVG.constructor` | dcm/svg.py:7-11 | a canvas of the given size and indent, with no elements |
| `Svg.SVG.AddElement` | dcm/svg.py:13-16 | appends the element indented `level` times and newline-terminated; the markup body grows by exactly that text |
| `Svg.SVG.AddCircle` | dcm/svg.py:18-20 | appends the circle tag at level 1 |
| `Svg.SVG.AddRectangle` | dcm/svg.py:22-24 | appends the rect tag at level 1 |
| `Svg.SVG.AddGroup` | dcm/svg.py:26-42 | appends the group markup at level 0 |
| `Svg.GroupAttrsCases` | dcm/svg.py:28-33 | id and class attributes appear only when truthy, id first, separated by one space |
| `Svg.IndentLines` | dcm/svg.py:36 | every content line is prefixed with the indent |
| `Svg.GroupMarkupLines` | dcm/svg.py:36-39 | the group's lines are the opening tag, each stripped content line indented one level deeper, and the closing tag |
| `Svg.LargeArcFlag` | dcm/svg.py:56 | "1" exactly when the arc spans at least 180 degrees, otherwise "0" |
| `Svg.PiePathShape` | dcm/svg.py:59-64 | the pie path starts `M cx cy `, ends with `Z`, and its commands are move, line, arc, close |
| `Svg.PieContent` | dcm/svg.py:66-75 | the content is wrapped in an anchor exactly when the url is truthy |
| `Svg.SVG.AddPieSegment` | dcm/svg.py:44-78 | appends the pie content as a group at level 2 with the aspect id and class |
| `Svg.ConcatInOrder` | dcm/svg.py:89 | each element occurs in the body at its position, between the earlier and the later ones |
| `Svg.ConcatAppend` | dcm/svg.py:89 | the body of a concatenated element list is the concatenation of the bodies |
| `Svg.Markup` | dcm/svg.py:80-93 | the markup is the svg header, then the concatenation of every element in insertion order, then `</svg>` |
| `DcmChart.GenerateSvgMarkup` | dcm/dcm_chart.py:83-197 | draws the tree circle, then each aspect with facets followed by its facet segments, then the legend iff its height is positive |
| `DcmChart.AspectPass` | dcm/dcm_chart.py:118-190 | one pass of the aspect loop: an aspect without facets is skipped; any other has its block drawn after what is drawn so far, and the start angle advances by its span |
| `DcmChart.DrawAspect` | dcm/dcm_chart.py:124-190 | draws an aspect that has facets: exactly the aspect's block, and returns the aspect's angle |
| `DcmChart.DrawFacets` | dcm/dcm_chart.py:159-188 | draws one segment per facet, in order |
| `DcmChart.FacetSegments` | dcm/dcm_chart.py:159-188 | one drawing per facet |
| `DcmChart.FacetSegmentAngles` | dcm/dcm_chart.py:152-188 | facet k of an aspect spans `[start + k·per, start + (k+1)·per)` and carries the facet's id |
| `DcmChart.LastFacetEndsWithAspect` | dcm/dcm_chart.py:152-157 | the facets of an aspect exactly fill its angle |
| `DcmChart.FacetStartIsMultiple` | dcm/dcm_chart.py:188 | after k facets the running start is the aspect start plus k angles per facet |
| `DcmChart.AspectEndIsNextStart` | dcm/dcm_chart.py:124-190 | an aspect with facets ends where the next aspect starts |
| `DcmChart.EmptyAspectKeepsStart` | dcm/dcm_chart.py:121-123 | an aspect without facets is skipped and leaves the start angle unchanged |
| `DcmChart.StartsAtZero` | dcm/dcm_chart.py:116 | the first aspect starts at 0 degrees |
| `DcmChart.EndsAtFullCircle` | dcm/dcm_chart.py:113-190 | with at least one facet, the aspects together cover exactly 360 degrees |
| `DcmChart.SpanSumIsStart` | dcm/dcm_chart.py:118-190 | the start angle accumulated by the loop equals the closed form 360 × (facets before) / (all facets) |
| `DcmChart.FacetCountPrefix` | dcm/dcm_chart.py:113 | the facets of the aspects before any point are at most the total |
| `DcmChart.FacetCountStep` | dcm/dcm_chart.py:113 | the facet count grows by each aspect's facet count |
| `DcmChart.NonEmptyAspectMeansFacets` | dcm/dcm_chart.py:113-124 | an aspect with facets makes the total positive, so the division is defined |
| `DcmChart.AngleAdd` | dcm/dcm_chart.py:124 | the proportional angle is additive in the facet count |
| `DcmChart.AngleFull` | dcm/dcm_chart.py:124 | all facets make 360 degrees |
| `DcmChart.BlocksStep` | dcm/dcm_chart.py:118-190 | each pass appends that aspect's block and angle; an aspect without facets adds nothing |
| `DcmChart.BlocksAreSegments` | dcm/dcm_chart.py:146-187 | between the tree circle and the legend, only donut segments are drawn |
| `DcmChart.BlockIsSegments` | dcm/dcm_chart.py:146-187 | an aspect's block is made of donut segments only |
| `DcmChart.SegmentRadii` | dcm/dcm_chart.py:135-176 | aspect rings run from the tree radius to the aspect radius, and facet rings from the aspect radius to the facet radius |
| `DcmChart.GeometryRatios` | dcm/dcm_chart.py:97-110 | center at half the width and half the height above the legend; tree radius cx/9; facet radius 0.9·min(cx,cy); aspect radius a third of it |
| `DcmChart.FacetUrlRule` | dcm/dcm_chart.py:161-168 | a truthy facet url is used as is; otherwise the lookup url's quoted description path, or none; popup iff the url is None |
| `DcmChart.AspectUrlRule` | dcm/dcm_chart.py:126-144 | the same rule for aspects, and the segment id is the aspect code |
| `DcmChart.LookupUrlChoice` | dcm/dcm_chart.py:85-87 | the tree's own lookup url wins when truthy; otherwise the argument is used |
| `DcmChart.SelectedRule` | dcm/dcm_chart.py:177-181 | a facet is selected iff the learner has an achievement at its path with a truthy level |
| `DcmChart.LegendLast` | dcm/dcm_chart.py:192-194 | the legend is drawn, and drawn last, iff the legend height is positive |
| `Stepper.LevelKeys` | dcm/dcm_assessment.py:47-60 | there is one button per competence level value |
| `Stepper.ButtonStates` | dcm/dcm_assessment.py:62-82 | every button is shown when no level is set; otherwise exactly the button of the set level is shown |
| `Stepper.VisibleButtons` | dcm/dcm_sela.py:54-74 | the visible set is all levels, or just the achieved one when it is a button |
| `Stepper.Toggled` | dcm/dcm_assessment.py:91-96 | selecting the current level clears it; any other selection sets it |
| `Stepper.ToggleTwice` | dcm/dcm_sela.py:83-88 | selecting the same level twice restores an unset or equal level |
| `Stepper.StepAfter` | dcm/dcm_assessment.py:101 | a selection steps forward exactly when the level is now set and non-zero |
| `Stepper.SelectionStep` | dcm/dcm_sela.py:83-93 | the view steps on exactly when a new non-zero level was picked |
| `Stepper.WithLevel` | dcm/dcm_assessment.py:94-96 | changing the current achievement's level leaves every other achievement and every path unchanged |
| `Stepper.WithLevelKeepsIndex` | dcm/dcm_sela.py:83-88 | a level change keeps the learner's by-path index sound |
| `Stepper.LevelCount` | dcm/dcm_assessment.py:224-228 | the progress count never exceeds the number of achievements |
| `Stepper.LevelCountExtremes` | dcm/dcm_sela.py:182-186 | the count is full iff every level is set, and zero iff none is |
| `Stepper.LevelCountWithLevel` | dcm/dcm_assessment.py:224-228 | a selection moves the progress count by exactly the change in that one achievement's set-ness |
| `Stepper.CountLevels` | dcm/dcm_sela.py:182-186 | the counting loop computes the number of set levels |
| `Stepper.ProgressBar.constructor` | dcm/dcm_assessment.py:203-206 | a progress bar with the given total, reset to 0 |
| `Stepper.Screen.constructor` | dcm/dcm_sela.py:169-171 | the index label with an empty markdown view and no notices |
| `Stepper.StepIndex` | dcm/dcm_assessment.py:241-245 | the index moves by the step when the target is in range; a negative target means no move; the index stays in range |
| `Stepper.Shows` | dcm/dcm_sela.py:197-200 | an achievement is shown unless the (clamped) target is past the end |
| `Stepper.CurrentAchievement` | dcm/dcm_assessment.py:160-167 | the achievement at an index in range; IndexError exactly at the length; ValueError for other indices |
| `Stepper.SteppedIndexIsCurrent` | dcm/dcm_sela.py:124-131 | after any step from a valid index, the current achievement exists |
| `Stepper.IndexStr` | dcm/dcm_assessment.py:194-196 | the label is at least five characters |
| `Stepper.IndexStrReadsBack` | dcm/dcm_sela.py:154-156 | the label splits at `/` into the one-based index and the total, each readable back after trimming |
| `Stepper.PaddedDecimal` | dcm/dcm_assessment.py:195 | padding adds only leading spaces and no `/` |
| `Stepper.ButtonRow.constructor` | dcm/dcm_assessment.py:27-45 | one button per level, in the state the current achievement's level calls for |
| `Stepper.ButtonRow.SetButtonStates` | dcm/dcm_sela.py:54-74 | the same buttons, each in the state the given level calls for |
| `Stepper.ButtonRow.HandleSelection` | dcm/dcm_assessment.py:84-102 | toggles the level of the referenced achievement in the learner; buttons follow the new level; the step is 1 iff the new level is truthy; the learner's index stays sound |
| `DcmAssessment.AreaEntries` | dcm/dcm_assessment.py:180-185 | an area contributes the area path entry followed by one entry per facet |
| `DcmAssessment.AspectEntriesLength` | dcm/dcm_assessment.py:179-185 | an aspect contributes one slot per area plus one per facet |
| `DcmAssessment.TreeEntriesLength` | dcm/dcm_assessment.py:178-185 | the tree contributes one slot per area plus one per facet, over all aspects |
| `DcmAssessment.SetupEntriesCount` | dcm/dcm_assessment.py:169-185 | the number of entries set up is the number of areas plus facets |
| `DcmAssessment.SetupEntriesShape` | dcm/dcm_assessment.py:169-185 | every entry is a fresh achievement at an aspect path, or at an aspect path followed by a facet id |
| `DcmAssessment.AspectEntriesShape` | dcm/dcm_assessment.py:179-185 | the same for the entries of one aspect |
| `DcmAssessment.SetupEntriesCover` | dcm/dcm_assessment.py:169-185 | every aspect with an area, and every facet, gets an entry |
| `DcmAssessment.AspectEntriesCover` | dcm/dcm_assessment.py:179-185 | the same within one aspect |
| `DcmAssessment.AspectEntryAt` | dcm/dcm_assessment.py:179-185 | within an aspect, entry k of area j's block sits right after the entries of the areas before j |
| `DcmAssessment.SetupEntryAt` | dcm/dcm_assessment.py:169-185 | entry k of the block of area j of aspect i (its area path, then its facets in order) sits right after the entries of the aspects before i and the areas before j |
| `DcmAssessment.LinkOf` | dcm/dcm_assessment.py:255-263 | an anchor iff the element has a path and a truthy url; the link text is the path |
| `DcmAssessment.MarkdownOf` | dcm/dcm_assessment.py:265-272 | the description ends the markdown; areas and facets get a `### parent` heading first |
| `DcmAssessment.ShowOutcome` | dcm/dcm_assessment.py:250-272 | a lookup error is raised with the views unchanged; no element gives an "invalid path" notice and the warning markdown; an element gives its link and markdown |
| `DcmAssessment.AreaEntryShowsAspect` | dcm/dcm_assessment.py:180-181 | an area entry `tree/aspect` displays the aspect |
| `DcmAssessment.FacetEntryLookup` | dcm/dcm_assessment.py:184-185 | a facet entry `tree/aspect/facet` is looked up as the area of that aspect whose id is the facet id, or None |
| `DcmAssessment.FacetPathDisplay` | dcm/dcm_assessment.py:250-272 | a facet's stamped path displays that facet with its link and markdown |
| `DcmAssessment.Assessment.constructor` | dcm/dcm_assessment.py:110-129 | sets up the learner's entries if it had none, otherwise keeps them; index 0; progress bar and label for the total; buttons for the first achievement |
| `DcmAssessment.Assessment.Reset` | dcm/dcm_assessment.py:131-152 | index 0; the learner's list is created from the tree when absent; total is its length |
| `DcmAssessment.Assessment.SetupAchievements` | dcm/dcm_assessment.py:169-185 | appends exactly the tree's setup entries, keeping the learner's index sound |
| `DcmAssessment.Assessment.AddAspectAchievements` | dcm/dcm_assessment.py:179-185 | appends exactly one aspect's entries |
| `DcmAssessment.Assessment.AddAreaAchievements` | dcm/dcm_assessment.py:180-185 | appends exactly one area's entries |
| `DcmAssessment.Assessment.AddAchievement` | dcm/dcm_assessment.py:187-192 | appends a fresh achievement at the path and indexes it |
| `DcmAssessment.Assessment.SetupUi` | dcm/dcm_assessment.py:198-217 | a new progress bar at 0 of total, the index label, and buttons for the current achievement |
| `DcmAssessment.Assessment.ShowProgress` | dcm/dcm_assessment.py:219-230 | the bar shows the total and the number of achievements with a level |
| `DcmAssessment.Assessment.UpdateAchievementView` | dcm/dcm_assessment.py:235-274 | updates progress; "first achievement reached!" when stepping before the start; "Done!" past the end with every other view unchanged; otherwise moves and relabels, then raises current_achievement's error with the buttons, link and markdown unchanged, or resets the buttons and shows the lookup outcome; nothing else in the views changes |
| `DcmAssessment.Assessment.MoveBy` | dcm/dcm_assessment.py:244-274 | the in-range and past-the-end branches of the view update, stated for the whole view state |
| `DcmAssessment.Assessment.MoveTo` | dcm/dcm_assessment.py:245-272 | the in-range branch: the index and its label move, then current_achievement's error is raised or the buttons, link and markdown show the achievement there; nothing else changes |
| `DcmAssessment.Assessment.ShowIndex` | dcm/dcm_assessment.py:246 | the label shows the current index and total, and nothing else changes |
| `DcmAssessment.Assessment.ShowAchievement` | dcm/dcm_assessment.py:247-272 | the buttons follow the achievement, and the views show its lookup outcome; the index label stays |
| `DcmAssessment.Assessment.HandleSelection` | dcm/dcm_assessment.py:84-102 | toggles the selected level, leaves the by-path index alone, resets the buttons, then updates the whole view by one step iff the level is now truthy |
| `DcmSela.FacetEntries` | dcm/dcm_sela.py:144-152 | one fresh achievement per facet at `tree/code/facet`, in order |
| `DcmSela.SelaEntries` | dcm/dcm_sela.py:142-152 | as many entries as facets across the aspects seen |
| `DcmSela.SetupEntriesCount` | dcm/dcm_sela.py:133-152 | the setup adds one entry per facet of the tree |
| `DcmSela.SelaEntryAt` | dcm/dcm_sela.py:143-152 | facet k of aspect i sits right after the facets of the earlier aspects |
| `DcmSela.SelaEntriesFresh` | dcm/dcm_sela.py:148-151 | every entry set up has no level and no score, and has the unit "%" |
| `DcmSela.SelaOutcome` | dcm/dcm_sela.py:206-211 | an unknown path gives the "invalid path" notice and the warning markdown; otherwise the description |
| `DcmSela.SelfAssessment.constructor` | dcm/dcm_sela.py:102-122 | sets up the entries if absent, builds the UI, and shows the first achievement |
| `DcmSela.SelfAssessment.SetupAchievements` | dcm/dcm_sela.py:133-152 | appends exactly the per-facet entries; the learner's by-path index is not updated |
| `DcmSela.SelfAssessment.AddFacetAchievements` | dcm/dcm_sela.py:143-152 | appends exactly one aspect's facet entries |
| `DcmSela.SelfAssessment.SetupUi` | dcm/dcm_sela.py:158-175 | total is the list length; a new progress bar, label and buttons for the current achievement |
| `DcmSela.SelfAssessment.BuildUi` | dcm/dcm_sela.py:163-175 | a new progress bar at 0 of total, the index label with no notices, and buttons for the current achievement |
| `DcmSela.SelfAssessment.ShowProgress` | dcm/dcm_sela.py:177-187 | the bar shows the number of achievements with a level; its total is not touched |
| `DcmSela.SelfAssessment.UpdateAchievementView` | dcm/dcm_sela.py:192-213 | the same stepping as the assessment; the markdown is the element description or the warning; the link view never changes; nothing else in the views changes |
| `DcmSela.SelfAssessment.MoveBy` | dcm/dcm_sela.py:200-213 | the in-range and past-the-end branches of the view update, stated for the whole view state |
| `DcmSela.SelfAssessment.MoveTo` | dcm/dcm_sela.py:201-211 | the in-range branch: the index and its label move, then current_achievement's error is raised or the buttons and markdown show the achievement there; the link view stays |
| `DcmSela.SelfAssessment.ShowIndex` | dcm/dcm_sela.py:202 | the label shows the current index and total, and nothing else changes |
| `DcmSela.SelfAssessment.ShowAchievement` | dcm/dcm_sela.py:203-211 | the buttons follow the achievement, and the markdown shows its lookup outcome; the label and link stay |
| `DcmSela.SelfAssessment.HandleSelection` | dcm/dcm_sela.py:76-94 | toggles the selected level, leaves the by-path index alone, resets the buttons, then updates the whole view by one step iff the level is now truthy |
| `XApi.Trunc` | dcm/xapi.py:58-60 | `int(x)` truncates toward zero |
| `XApi.AchievementOf` | dcm/xapi.py:49-63 | the achievement's path, raw score and date come from the statement; its level is the truncated scaled score times the number of levels |
| `XApi.AchievementsAfter` | dcm/xapi.py:37-64 | one achievement per entry with a statement |
| `XApi.AchievementAt` | dcm/xapi.py:37-64 | the statement at entry i yields the achievement after those of the earlier statements, in order |
| `XApi.FirstActorAppend` | dcm/xapi.py:41-45 | the first actor of a longer list is unchanged once fixed |
| `XApi.ActorIdIsFirstActor` | dcm/xapi.py:41-48 | the actor id is the account name of the first statement whose actor has one; an actor whose name is null fixes nothing |
| `XApi.ActorIdStable` | dcm/xapi.py:44-48 | once fixed, later actors never replace the actor id |
| `XApi.NoWarningsBeforeActor` | dcm/xapi.py:44-48 | no warning is issued before an account name is fixed |
| `XApi.WarningsAfterFixed` | dcm/xapi.py:44-48 | once the actor id is fixed without a warning, the later statements warn exactly against it |
| `XApi.WarningsAreAgainstFirstActor` | dcm/xapi.py:41-48 | the warnings are exactly one per later statement whose actor is null or names another account than the first one, in order, each naming both ids |
| `XApi.XAPI.constructor` | dcm/xapi.py:18-19 | no statements |
| `XApi.XAPI.ToLearner` | dcm/xapi.py:25-71 | a learner iff the actor id is a non-empty name, carrying all the achievements; one warning per present actor that differs from the fixed id (a null name prints as `None`), plus "no learner / actor defined" when there is no learner |

## Left out

- `DcmChart.SelectedRule`: dcm/dcm_chart.py:177-181 reads `facet.path`, an attribute that only `__post_init__` path stamping creates, so an unstamped facet raises AttributeError there; the model treats a facet without a path as not selected.
- I/O and UI: nicegui widgets, `ui.notify` (modelled as the `notices` list), `row.update()`, `render_dcm`, file loading (`from_json`, `save`) and `print` to stderr (the xAPI warnings are a returned list).
- The async `step` wrappers forward to `update_achievement_view`, and the model calls that directly.
- The `webserver` and `debug` parameters have no effect on the modelled state.
- `Assessment.clear`: it only clears a UI container.
- `Link.create` markup: a link is modelled as an anchor (url and text) or as plain text.
- `setup_buttons` widget creation: the buttons are modelled only as a map from level to shown/hidden.
- The trigonometry of `add_pie_segment`: the start and end points are arguments, given as text.
- `svg.add_circle(config)`, `add_donut_segment`, `add_legend` and `to_svg_node_config` are outside dcm/svg.py: the chart issues `Draw` commands instead of markup.
- `DcmChart.GenerateSvgMarkup`: `urllib.parse.quote` is a function parameter, and the markup text is not produced.
- `DcmChart.GenerateSvgMarkup`: the keyword defaults of dcm/dcm_chart.py:63-70 are not modelled: the tree and the config are always given (the fallback to `self.dcm.competence_tree` at lines 83-84 and to the default `SVGConfig` at lines 90-93 are left to the caller), and the `lookup_url=""` default is the caller passing `Some("")`, which gives `/description/…` urls as the code does (`None` stands for an explicit `lookup_url=None`).
- The radar chart, slugify, the example loaders and the markup parsing of dcm/dcm_core.py are not part of this model.
- `DcmSela.SelfAssessment.constructor`: `lookup_by_path` on the keyed tree is a function parameter, because dcm/dcm_core.py does not define a lookup for that shape.
- `DcmAssessment.Assessment.constructor`: requires a non-empty achievement list. With an empty list, `setup_ui` raises IndexError in `current_achievement`, and that error path is not modelled.
- `DcmSela.SelfAssessment.constructor`: requires a non-empty achievement list, for the same reason.
- `DcmAssessment.Assessment.constructor` and `DcmAssessment.Assessment.Reset`: require `l.Valid()`, the by-path index that `Learner.__post_init__` (dcm/dcm_core.py:360-365) builds for every learner. dcm/dcm_assessment.py:131-152 does not read that index; the model needs it to keep it correct while setting up the achievement list. A learner whose index was changed by hand is outside the model.
- `XApi.XAPI.ToLearner`: the `KeyError`s raised by statements without `context`, `result` or `timestamp`, and by a present actor without `account` or `account.name` (dcm/xapi.py:43), are not modelled. A statement is assumed to carry all of them. An actor is absent, named, or has a null name.
- `XApi.XAPI.ToLearner`: `competence_tree.total_valid_levels` is passed in as a number.
- Floating point: scores and angles are reals, without rounding.
- `Svg.SVG.GetSvgMarkup`: computes the markup and changes nothing. Its property is stated by `Svg.Markup`.
