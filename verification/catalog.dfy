/**
 The project catalog and the matching step of `renderProjects`: a project is
 shown when, on each of the three filter dimensions, the selection is the
 sentinel `"all"` or the project carries the selected value.
 */
module Catalog {
  import opened Text
  import opened Sequences

  datatype Complexity = Beginner | Intermediate | Advanced

  /** The string the catalog stores for a complexity level. */
  function ComplexityName(c: Complexity): string {
    match c
    case Beginner => "beginner"
    case Intermediate => "intermediate"
    case Advanced => "advanced"
  }

  /** An ISO `YYYY-MM-DD` date, already split into its three fields. */
  datatype Date = Date(year: nat, month: nat, day: nat)

  datatype Links = Links(demo: string, github: string)

  datatype Project = Project(
    id: int,
    title: string,
    description: string,
    image: string,
    technologies: seq<string>,
    category: string,
    complexity: Complexity,
    date: Date,
    links: Links)

  /** The sentinel selection that disables a dimension. */
  const AllValue: string := "all"

  /** One selected value per dimension; `"all"` means no constraint. */
  datatype FilterSelection = FilterSelection(category: string, complexity: string, technology: string)

  /** The selection the page starts with. */
  const NoFilters: FilterSelection := FilterSelection(AllValue, AllValue, AllValue)

  datatype Dimension = CategoryDim | ComplexityDim | TechnologyDim

  function Selected(f: FilterSelection, d: Dimension): string {
    match d
    case CategoryDim => f.category
    case ComplexityDim => f.complexity
    case TechnologyDim => f.technology
  }

  /**
   A click on a filter button: the button's dimension takes the button's
   value and the other two dimensions keep theirs.
   */
  function SetFilter(f: FilterSelection, d: Dimension, v: string): (g: FilterSelection)
    ensures Selected(g, d) == v
    ensures forall e :: e != d ==> Selected(g, e) == Selected(f, e)
  {
    match d
    case CategoryDim => f.(category := v)
    case ComplexityDim => f.(complexity := v)
    case TechnologyDim => f.(technology := v)
  }

  /** Some technology of the list, once lower-cased, is the selected value. */
  predicate UsesTechnology(technologies: seq<string>, selected: string) {
    technologies != [] && (Lower(technologies[0]) == selected || UsesTechnology(technologies[1..], selected))
  }

  /** The technology check holds exactly when some entry, lower-cased, is the selected value. */
  lemma {:induction false} UsesTechnologyIff(technologies: seq<string>, selected: string)
    ensures UsesTechnology(technologies, selected)
        <==> exists i | 0 <= i < |technologies| :: Lower(technologies[i]) == selected
  {
    if technologies != [] {
      UsesTechnologyIff(technologies[1..], selected);
      if UsesTechnology(technologies[1..], selected) {
        var i :| 0 <= i < |technologies[1..]| && Lower(technologies[1..][i]) == selected;
        assert Lower(technologies[i + 1]) == selected;
      }
      if exists i | 0 <= i < |technologies| :: Lower(technologies[i]) == selected {
        var i :| 0 <= i < |technologies| && Lower(technologies[i]) == selected;
        if i > 0 {
          assert Lower(technologies[1..][i - 1]) == selected;
        }
      }
    }
  }

  /** Whether a project passes one dimension of the selection on its own. */
  predicate Passes(p: Project, f: FilterSelection, d: Dimension) {
    Selected(f, d) == AllValue ||
    match d
    case CategoryDim => p.category == f.category
    case ComplexityDim => ComplexityName(p.complexity) == f.complexity
    case TechnologyDim => exists i | 0 <= i < |p.technologies| :: Lower(p.technologies[i]) == f.technology
  }

  /**
   The filter callback of `renderProjects`, with its three early returns. They
   amount to a conjunction: a project matches exactly when it passes all three
   dimensions at once.
   */
  predicate Matches(p: Project, f: FilterSelection): (b: bool)
    ensures b <==> Passes(p, f, CategoryDim) && Passes(p, f, ComplexityDim) && Passes(p, f, TechnologyDim)
  {
    UsesTechnologyIff(p.technologies, f.technology);
    if f.category != AllValue && p.category != f.category then false
    else if f.complexity != AllValue && ComplexityName(p.complexity) != f.complexity then false
    else if f.technology != AllValue && !UsesTechnology(p.technologies, f.technology) then false
    else true
  }

  /**
   `projects.filter(...)`: the matching projects, in catalog order, each with
   the multiplicity it has in the catalog.
   */
  function FilterProjects(catalog: seq<Project>, f: FilterSelection): (r: seq<Project>)
    ensures IsSubsequence(r, catalog)
    ensures forall p :: p in r ==> Matches(p, f)
    ensures forall p :: multiset(r)[p] == if Matches(p, f) then multiset(catalog)[p] else 0
  {
    if catalog == [] then []
    else
      var rest := FilterProjects(catalog[1..], f);
      assert catalog == [catalog[0]] + catalog[1..];
      if Matches(catalog[0], f) then
        SubsequenceCons(catalog[0], rest, catalog[1..]);
        [catalog[0]] + rest
      else
        rest
  }

  /** A project is kept exactly when it is in the catalog and matches. */
  lemma FilterMembership(catalog: seq<Project>, f: FilterSelection, p: Project)
    ensures p in FilterProjects(catalog, f) <==> p in catalog && Matches(p, f)
  {
    var r := FilterProjects(catalog, f);
    assert p in r <==> multiset(r)[p] > 0;
    assert p in catalog <==> multiset(catalog)[p] > 0;
  }

  /** With every dimension on `"all"` the whole catalog comes back, in order. */
  lemma {:induction false} FilterNoFiltersIsIdentity(catalog: seq<Project>)
    ensures FilterProjects(catalog, NoFilters) == catalog
  {
    if catalog != [] {
      FilterNoFiltersIsIdentity(catalog[1..]);
      assert catalog == [catalog[0]] + catalog[1..];
    }
  }

  /** Filtering a filtered list again with the same selection changes nothing. */
  lemma {:induction false} FilterIdempotent(catalog: seq<Project>, f: FilterSelection)
    ensures FilterProjects(FilterProjects(catalog, f), f) == FilterProjects(catalog, f)
  {
    if catalog != [] {
      FilterIdempotent(catalog[1..], f);
      var rest := FilterProjects(catalog[1..], f);
      if Matches(catalog[0], f) {
        assert ([catalog[0]] + rest)[1..] == rest;
      }
    }
  }

  /** The result is empty exactly when no project of the catalog matches. */
  lemma FilterEmptyIff(catalog: seq<Project>, f: FilterSelection)
    ensures FilterProjects(catalog, f) == [] <==> forall p | p in catalog :: !Matches(p, f)
  {
    var r := FilterProjects(catalog, f);
    if r != [] {
      FilterMembership(catalog, f, r[0]);
    }
    forall p | p in catalog && Matches(p, f)
      ensures r != []
    {
      FilterMembership(catalog, f, p);
    }
  }
}
