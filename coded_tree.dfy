/**
 * The shape of the competence tree that the chart generator and the
 * self-assessment read: aspects in a dictionary from aspect code to aspect,
 * each aspect holding its facets directly, and a list of competence levels.
 */
module CodedTrees {
  import opened Wrappers
  import opened DcmCore

  datatype CodedAspect = CodedAspect(name: string, url: Option<string>, facets: seq<Facet>)

  /** `competence_aspects` keeps the dictionary's insertion order as a list of (code, aspect) items. */
  datatype CodedTree = CodedTree(
    id: string, lookupUrl: Option<string>,
    aspects: seq<(string, CodedAspect)>, levels: seq<Level>)

  /** Dictionary keys are unique. */
  ghost predicate UniqueCodes(t: CodedTree)
  {
    forall i, j :: 0 <= i < j < |t.aspects| ==> t.aspects[i].0 != t.aspects[j].0
  }
}
