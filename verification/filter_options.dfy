/**
 The option lists behind the filter buttons of `renderProjectFilters`: per
 dimension, a `Set` seeded with `"all"` and filled from the catalog in
 catalog order (technologies lower-cased), of which the technology row shows
 only the first eight entries.
 */
module FilterOptions {
  import opened Text
  import opened Sequences
  import opened Catalog

  /** The technology row shows at most this many buttons, `"all"` included. */
  const MaxTechnologyButtons: nat := 8

  /** `Set.prototype.add` on an insertion-ordered set of strings. */
  function AddOption(options: seq<string>, v: string): seq<string> {
    if v in options then options else options + [v]
  }

  /** Adds `values` one after the other. */
  function AddAll(options: seq<string>, values: seq<string>): (r: seq<string>)
    ensures |options| <= |r| && r[..|options|] == options
    ensures Distinct(options) ==> Distinct(r)
    ensures forall v :: v in r <==> v in options || v in values
    ensures IsSubsequence(r[|options|..], values)
    decreases |values|
  {
    if values == [] then
      assert options[|options|..] == [];
      options
    else
      var next := AddOption(options, values[0]);
      var r := AddAll(next, values[1..]);
      assert forall v :: v in values <==> v == values[0] || v in values[1..] by {
        assert values == [values[0]] + values[1..];
      }
      if values[0] in options then
        SubsequenceDropHead(r[|options|..], values);
        r
      else
        assert r[|options|..] == [values[0]] + r[|next|..];
        SubsequenceCons(values[0], r[|next|..], values[1..]);
        assert values == [values[0]] + values[1..];
        r
  }

  /**
   The values a `Set` holding `options` gains from `values`, read position by
   position: `values[i]` is kept when it is neither in `options` nor earlier
   in `values`, and the kept values stay in the order they come.
   */
  ghost function Fresh(options: seq<string>, values: seq<string>): seq<string>
    decreases |values|
  {
    if values == [] then []
    else
      var init := values[..|values| - 1];
      var x := values[|values| - 1];
      Fresh(options, init) + (if x in options || x in init then [] else [x])
  }

  /** Adding one more value at the end is one more `add`. */
  lemma {:induction false} AddAllSnoc(options: seq<string>, values: seq<string>, x: string)
    ensures AddAll(options, values + [x]) == AddOption(AddAll(options, values), x)
    decreases |values|
  {
    if values == [] {
      assert [] + [x] == [x];
      assert [x][1..] == [];
    } else {
      assert (values + [x])[0] == values[0];
      assert (values + [x])[1..] == values[1..] + [x];
      AddAllSnoc(AddOption(options, values[0]), values[1..], x);
    }
  }

  /** The insertion order of a `Set`: the old entries, then each new value at its first occurrence. */
  lemma {:induction false} AddAllIsFresh(options: seq<string>, values: seq<string>)
    ensures AddAll(options, values) == options + Fresh(options, values)
    decreases |values|
  {
    if values != [] {
      var init := values[..|values| - 1];
      var x := values[|values| - 1];
      assert values == init + [x];
      AddAllIsFresh(options, init);
      AddAllSnoc(options, init, x);
    }
  }

  /** Filling the set from `a` and then from `b` is filling it from `a + b`. */
  lemma {:induction false} AddAllConcat(options: seq<string>, a: seq<string>, b: seq<string>)
    ensures AddAll(options, a + b) == AddAll(AddAll(options, a), b)
    decreases |a|
  {
    if a == [] {
      assert [] + b == b;
    } else {
      assert (a + b)[0] == a[0];
      assert (a + b)[1..] == a[1..] + b;
      AddAllConcat(AddOption(options, a[0]), a[1..], b);
    }
  }

  /** Filling from a list with a known head. */
  lemma AddAllCons(options: seq<string>, x: string, rest: seq<string>)
    ensures AddAll(options, [x] + rest) == AddAll(AddOption(options, x), rest)
  {
    assert ([x] + rest)[1..] == rest;
  }

  /** Filling a set from a short list is a chain of single `add`s. */
  lemma AddAllOne(options: seq<string>, a: string)
    ensures AddAll(options, [a]) == AddOption(options, a)
  {
    assert [a][1..] == [];
  }

  lemma AddAllTwo(options: seq<string>, a: string, b: string)
    ensures AddAll(options, [a, b]) == AddOption(AddOption(options, a), b)
  {
    AddAllOne(options, a);
    AddAllSnoc(options, [a], b);
    assert [a, b] == [a] + [b];
  }

  lemma AddAllThree(options: seq<string>, a: string, b: string, c: string)
    ensures AddAll(options, [a, b, c]) == AddOption(AddOption(AddOption(options, a), b), c)
  {
    AddAllTwo(options, a, b);
    AddAllSnoc(options, [a, b], c);
    assert [a, b, c] == [a, b] + [c];
  }

  lemma AddAllFour(options: seq<string>, a: string, b: string, c: string, d: string)
    ensures AddAll(options, [a, b, c, d]) == AddOption(AddOption(AddOption(AddOption(options, a), b), c), d)
  {
    AddAllThree(options, a, b, c);
    AddAllSnoc(options, [a, b, c], d);
    assert [a, b, c, d] == [a, b, c] + [d];
  }

  /** A value not yet in the set makes it grow past its old entries. */
  lemma AddAllGrows(options: seq<string>, values: seq<string>, x: string)
    requires x in values && x !in options
    ensures |AddAll(options, values)| > |options|
    ensures AddAll(options, values)[..|options|] == options
  {
    var r := AddAll(options, values);
    assert forall i | 0 <= i < |options| :: r[i] == options[i] by {
      assert r[..|options|] == options;
    }
    assert x in r;
  }

  /** Each technology name, lower-cased. */
  function LowerAll(technologies: seq<string>): (r: seq<string>)
    ensures |r| == |technologies|
    ensures forall i | 0 <= i < |r| :: r[i] == Lower(technologies[i])
  {
    seq(|technologies|, i requires 0 <= i < |technologies| => Lower(technologies[i]))
  }

  /** The values one project adds to the option set of a dimension. */
  function Attribute(p: Project, d: Dimension): seq<string> {
    match d
    case CategoryDim => [p.category]
    case ComplexityDim => [ComplexityName(p.complexity)]
    case TechnologyDim => LowerAll(p.technologies)
  }

  /** Everything the `forEach` over the catalog adds to one dimension, in order. */
  function DimensionValues(catalog: seq<Project>, d: Dimension): (r: seq<string>)
    ensures forall v :: v in r <==> exists p | p in catalog :: v in Attribute(p, d)
  {
    if catalog == [] then []
    else
      var r := Attribute(catalog[0], d) + DimensionValues(catalog[1..], d);
      assert forall p :: p in catalog <==> p == catalog[0] || p in catalog[1..] by {
        assert catalog == [catalog[0]] + catalog[1..];
      }
      r
  }

  /** Collecting values from a catalog with a known head. */
  lemma DimensionValuesCons(a: Project, s: seq<Project>, d: Dimension)
    ensures DimensionValues([a] + s, d) == Attribute(a, d) + DimensionValues(s, d)
  {
    assert ([a] + s)[1..] == s;
  }

  /**
   The whole `Set` of a dimension: `"all"` first, then each catalog value at
   its first occurrence.
   */
  function OptionSet(catalog: seq<Project>, d: Dimension): (r: seq<string>)
    ensures |r| >= 1 && r[0] == AllValue
    ensures Distinct(r)
    ensures forall v :: v in r <==> v == AllValue || exists p | p in catalog :: v in Attribute(p, d)
  {
    AddAll([AllValue], DimensionValues(catalog, d))
  }

  /** The option set lists `"all"`, then each catalog value where it first occurs. */
  lemma OptionSetOrder(catalog: seq<Project>, d: Dimension)
    ensures OptionSet(catalog, d) == [AllValue] + Fresh([AllValue], DimensionValues(catalog, d))
  {
    AddAllIsFresh([AllValue], DimensionValues(catalog, d));
  }

  /** How many entries of an option set of `size` entries get a button. */
  function ButtonCount(size: nat, d: Dimension): nat {
    if d == TechnologyDim && size > MaxTechnologyButtons then MaxTechnologyButtons else size
  }

  /**
   The values given buttons for a dimension: the option set in insertion
   order, cut to its first eight entries on the technology row. So `"all"`
   comes first, nothing repeats, every other entry is taken from some
   project, and a project value is left out only from a technology row that
   is already full.
   */
  function FilterButtons(catalog: seq<Project>, d: Dimension): (r: seq<string>)
    ensures 1 <= |r| && r[0] == AllValue
    ensures Distinct(r)
    ensures forall i | 1 <= i < |r| :: exists p | p in catalog :: r[i] in Attribute(p, d)
    ensures d == TechnologyDim ==> |r| <= MaxTechnologyButtons
    ensures forall p, v | p in catalog && v in Attribute(p, d) ::
              v in r || (d == TechnologyDim && |r| == MaxTechnologyButtons)
    ensures IsSubsequence(r[1..], DimensionValues(catalog, d))
    ensures |r| <= |OptionSet(catalog, d)| && forall i | 0 <= i < |r| :: r[i] == OptionSet(catalog, d)[i]
    ensures |r| == if d == TechnologyDim && |OptionSet(catalog, d)| > MaxTechnologyButtons
                   then MaxTechnologyButtons else |OptionSet(catalog, d)|
  {
    ButtonRow(catalog, d);
    OptionSet(catalog, d)[..ButtonCount(|OptionSet(catalog, d)|, d)]
  }

  /** The facts `FilterButtons` promises, stated of the cut option set. */
  lemma ButtonRow(catalog: seq<Project>, d: Dimension)
    ensures var all := OptionSet(catalog, d);
            var r := all[..ButtonCount(|all|, d)];
            && 1 <= |r| && r[0] == AllValue
            && Distinct(r)
            && (forall i | 1 <= i < |r| :: exists p | p in catalog :: r[i] in Attribute(p, d))
            && (d == TechnologyDim ==> |r| <= MaxTechnologyButtons)
            && (forall p, v | p in catalog && v in Attribute(p, d) ::
                  v in r || (d == TechnologyDim && |r| == MaxTechnologyButtons))
            && IsSubsequence(r[1..], DimensionValues(catalog, d))
  {
    var all := OptionSet(catalog, d);
    var n := ButtonCount(|all|, d);
    OptionPrefix(catalog, d, n);
    assert all[..|all|] == all;
  }

  /** The facts `FilterButtons` promises hold of every non-empty prefix of the option set. */
  lemma OptionPrefix(catalog: seq<Project>, d: Dimension, n: nat)
    requires 1 <= n <= |OptionSet(catalog, d)|
    ensures var r := OptionSet(catalog, d)[..n];
            && r[0] == AllValue
            && Distinct(r)
            && (forall i | 1 <= i < |r| :: exists p | p in catalog :: r[i] in Attribute(p, d))
            && IsSubsequence(r[1..], DimensionValues(catalog, d))
  {
    var all := OptionSet(catalog, d);
    var r := all[..n];
    assert all[..1] == [AllValue];
    forall i | 1 <= i < |r|
      ensures exists p | p in catalog :: r[i] in Attribute(p, d)
    {
      assert r[i] == all[i] && all[i] != AllValue;
      assert all[i] in all;
    }
    assert r[1..] == all[1..][..n - 1];
    SubsequencePrefix(all[1..], n - 1, DimensionValues(catalog, d));
  }

  /** Outside `"all"`, passing a dimension means the selection is one of the project's values. */
  lemma PassesIffAttribute(p: Project, f: FilterSelection, d: Dimension)
    requires Selected(f, d) != AllValue
    ensures Passes(p, f, d) <==> Selected(f, d) in Attribute(p, d)
  {
    if d == TechnologyDim {
      var ts := LowerAll(p.technologies);
      if Passes(p, f, d) {
        var i :| 0 <= i < |p.technologies| && Lower(p.technologies[i]) == f.technology;
        assert ts[i] == f.technology;
      }
    }
  }

  /**
   Selecting a value of a dimension, with the other two on `"all"`, shows
   some project exactly when that value occurs in the catalog.
   */
  lemma SelectingValueShowsProjects(catalog: seq<Project>, d: Dimension, v: string)
    requires v != AllValue
    ensures FilterProjects(catalog, SetFilter(NoFilters, d, v)) != []
        <==> exists p | p in catalog :: v in Attribute(p, d)
  {
    var f := SetFilter(NoFilters, d, v);
    FilterEmptyIff(catalog, f);
    forall p | p in catalog
      ensures Matches(p, f) <==> v in Attribute(p, d)
    {
      PassesIffAttribute(p, f, d);
    }
  }

  /** Every button other than `"all"` shows at least one project when clicked from the start state. */
  lemma ButtonSelectsSomething(catalog: seq<Project>, d: Dimension, v: string)
    requires v in FilterButtons(catalog, d) && v != AllValue
    ensures FilterProjects(catalog, SetFilter(NoFilters, d, v)) != []
  {
    var r := FilterButtons(catalog, d);
    var i :| 0 <= i < |r| && r[i] == v;
    SelectingValueShowsProjects(catalog, d, v);
  }

  /** Every category or complexity that shows projects has a button. */
  lemma ShowingValueHasButton(catalog: seq<Project>, d: Dimension, v: string)
    requires d != TechnologyDim && v != AllValue
    requires FilterProjects(catalog, SetFilter(NoFilters, d, v)) != []
    ensures v in FilterButtons(catalog, d)
  {
    SelectingValueShowsProjects(catalog, d, v);
  }
}
