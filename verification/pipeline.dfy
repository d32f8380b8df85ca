/**
 `renderProjects` without the DOM: filter the catalog with the current
 selection, sort the survivors with the current key, and report the
 placeholder state when nothing is left.
 */
module Pipeline {
  import opened Sequences
  import opened Catalog
  import opened Sorting

  /** What the projects grid shows: the placeholder, or a non-empty list of cards. */
  datatype View = NoProjectsMatch | Showing(projects: seq<Project>)

  /**
   The placeholder appears exactly when no project matches; otherwise the
   grid holds every matching project as often as the catalog does, in the
   order of the sort key, ties in catalog order.
   */
  function RenderProjects(catalog: seq<Project>, filters: FilterSelection, sortBy: string): (v: View)
    ensures v.NoProjectsMatch? <==> forall p | p in catalog :: !Matches(p, filters)
    ensures v.Showing? ==> v.projects != []
    ensures v.Showing? ==>
              forall p :: multiset(v.projects)[p] == if Matches(p, filters) then multiset(catalog)[p] else 0
    ensures v.Showing? ==> Sorted(ParseSortKey(sortBy), v.projects)
    ensures v.Showing? ==> Stable(ParseSortKey(sortBy), v.projects, FilterProjects(catalog, filters))
    ensures v.Showing? && ParseSortKey(sortBy) == Unsorted ==> IsSubsequence(v.projects, catalog)
  {
    var matching := FilterProjects(catalog, filters);
    FilterEmptyIff(catalog, filters);
    var shown := SortProjects(matching, sortBy);
    assert shown == [] <==> matching == [] by {
      assert |shown| == |multiset(shown)| == |multiset(matching)| == |matching|;
    }
    if shown == [] then NoProjectsMatch else Showing(shown)
  }

  /** With the start selection and the default sort the grid shows the catalog as it is. */
  lemma StartStateShowsCatalog(catalog: seq<Project>)
    requires catalog != []
    ensures RenderProjects(catalog, NoFilters, "default") == Showing(catalog)
  {
    FilterNoFiltersIsIdentity(catalog);
  }
}
