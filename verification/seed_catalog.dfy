/**
 The four projects the page ships with, and what the pipeline makes of
 them for a few selections. Descriptions are display text only and are left
 empty here.
 */
module SeedCatalog {
  import opened Text
  import opened Catalog
  import opened Sorting
  import opened FilterOptions
  import opened Pipeline

  const P1: Project := Project(1, "Data Structure Course Project", "", "assets/DataStructures.jpeg",
    ["Problem-solving", "Algorithm design", "Java"],
    "academic", Intermediate, Date(2024, 1, 15), Links("#", "#"))
  const P2: Project := Project(2, "Data Science Course Project", "", "assets/DataSience.jpeg",
    ["Python", "Data cleaning", "Statistical analysis", "Problem-solving"],
    "academic", Beginner, Date(2024, 3, 20), Links("#", "#"))
  const P3: Project := Project(3, "Software Engineering Course Project", "", "assets/software.jpeg",
    ["Requirement gathering", "Software design", "Programming and debugging", "Testing and quality assurance"],
    "academic", Advanced, Date(2024, 5, 10), Links("#", "#"))
  const P4: Project := Project(4, "Personal Portfolio Website", "", "assets/portfolioPic.png",
    ["HTML", "CSS", "JavaScript", "UI Design"],
    "web", Intermediate, Date(2024, 6, 1), Links("#", "#"))

  const SeedProjects: seq<Project> := [P1, P2, P3, P4]

  /** Sorting a short list is a chain of insertions. */
  lemma SortOne(k: SortKey, a: Project)
    ensures InsertionSort(k, [a]) == [a]
  {
    InsertionSortSnoc(k, [], a);
    assert [a] == [] + [a];
  }

  lemma SortTwo(k: SortKey, a: Project, b: Project)
    ensures InsertionSort(k, [a, b]) == Insert(k, b, [a])
  {
    SortOne(k, a);
    InsertionSortSnoc(k, [a], b);
    assert [a, b] == [a] + [b];
  }

  lemma SortThree(k: SortKey, a: Project, b: Project, c: Project)
    ensures InsertionSort(k, [a, b, c]) == Insert(k, c, Insert(k, b, [a]))
  {
    SortTwo(k, a, b);
    InsertionSortSnoc(k, [a, b], c);
    assert [a, b, c] == [a, b] + [c];
  }

  lemma SortFour(k: SortKey, a: Project, b: Project, c: Project, d: Project)
    ensures InsertionSort(k, [a, b, c, d]) == Insert(k, d, Insert(k, c, Insert(k, b, [a])))
  {
    SortThree(k, a, b, c);
    InsertionSortSnoc(k, [a, b, c], d);
    assert [a, b, c, d] == [a, b, c] + [d];
  }

  /** Filtering a list with a known head. */
  lemma FilterCons(f: FilterSelection, a: Project, s: seq<Project>)
    ensures FilterProjects([a] + s, f) == (if Matches(a, f) then [a] else []) + FilterProjects(s, f)
  {
    assert ([a] + s)[1..] == s;
  }

  function Kept(f: FilterSelection, a: Project): seq<Project> {
    if Matches(a, f) then [a] else []
  }

  lemma FilterTwo(f: FilterSelection, c: Project, d: Project)
    ensures FilterProjects([c, d], f) == Kept(f, c) + Kept(f, d)
  {
    FilterCons(f, d, []);
    assert [d] == [d] + [];
    FilterCons(f, c, [d]);
    assert [c, d] == [c] + [d];
  }

  lemma FilterThree(f: FilterSelection, b: Project, c: Project, d: Project)
    ensures FilterProjects([b, c, d], f) == Kept(f, b) + (Kept(f, c) + Kept(f, d))
  {
    FilterTwo(f, c, d);
    FilterCons(f, b, [c, d]);
    assert [b, c, d] == [b] + [c, d];
  }

  /** Filtering four projects, one at a time. */
  lemma FilterFour(f: FilterSelection, a: Project, b: Project, c: Project, d: Project)
    ensures FilterProjects([a, b, c, d], f) == Kept(f, a) + (Kept(f, b) + (Kept(f, c) + Kept(f, d)))
  {
    FilterThree(f, b, c, d);
    FilterCons(f, a, [b, c, d]);
    assert [a, b, c, d] == [a] + [b, c, d];
  }

  const Academic: FilterSelection := FilterSelection("academic", "all", "all")

  lemma AcademicMatchesFirstThree()
    ensures Kept(Academic, P1) == [P1] && Kept(Academic, P2) == [P2]
    ensures Kept(Academic, P3) == [P3] && Kept(Academic, P4) == []
  {
  }

  lemma AcademicKeepsFirstThree()
    ensures FilterProjects(SeedProjects, Academic) == [P1, P2, P3]
  {
    AcademicMatchesFirstThree();
    FilterFour(Academic, P1, P2, P3, P4);
  }

  lemma AcademicShowsFirstThree()
    ensures RenderProjects(SeedProjects, Academic, "default") == Showing([P1, P2, P3])
  {
    AcademicKeepsFirstThree();
  }

  const Python: FilterSelection := FilterSelection("all", "all", "python")

  lemma PythonMissesP1()
    ensures Kept(Python, P1) == []
  {
    assert Lower("Problem-solving")[1] == 'r';
    assert Lower("Algorithm design")[0] == 'a';
    assert Lower("Java")[0] == 'j';
  }

  lemma PythonMatchesP2()
    ensures Kept(Python, P2) == [P2]
  {
    assert Lower("Python") == "python";
  }

  lemma PythonMissesP3()
    ensures Kept(Python, P3) == []
  {
    assert Lower("Requirement gathering")[0] == 'r';
    assert Lower("Software design")[0] == 's';
    assert Lower("Programming and debugging")[1] == 'r';
    assert Lower("Testing and quality assurance")[0] == 't';
  }

  lemma PythonMissesP4()
    ensures Kept(Python, P4) == []
  {
    assert Lower("HTML")[0] == 'h';
    assert Lower("CSS")[0] == 'c';
    assert Lower("JavaScript")[0] == 'j';
    assert Lower("UI Design")[0] == 'u';
  }

  lemma PythonKeepsP2()
    ensures FilterProjects(SeedProjects, Python) == [P2]
  {
    PythonMissesP1();
    PythonMatchesP2();
    PythonMissesP3();
    PythonMissesP4();
    FilterFour(Python, P1, P2, P3, P4);
  }

  lemma PythonShowsDataScience()
    ensures RenderProjects(SeedProjects, Python, "default") == Showing([P2])
  {
    PythonKeepsP2();
  }

  lemma WebAdvancedShowsPlaceholder()
    ensures RenderProjects(SeedProjects, FilterSelection("web", "advanced", "all"), "default") == NoProjectsMatch
  {
  }

  lemma DateInsertions()
    ensures Insert(ByDate, P2, [P1]) == [P2, P1]
    ensures Insert(ByDate, P3, [P2, P1]) == [P3, P2, P1]
  {
  }

  lemma DateLastInsertion()
    ensures Insert(ByDate, P4, [P3, P2, P1]) == [P4, P3, P2, P1]
  {
  }

  lemma DateSortNewestFirst()
    ensures RenderProjects(SeedProjects, NoFilters, "date") == Showing([P4, P3, P2, P1])
  {
    FilterNoFiltersIsIdentity(SeedProjects);
    SortFour(ByDate, P1, P2, P3, P4);
    DateInsertions();
    DateLastInsertion();
  }

  lemma ComplexityInsertions()
    ensures Insert(ByComplexity, P2, [P1]) == [P2, P1]
    ensures Insert(ByComplexity, P3, [P2, P1]) == [P2, P1, P3]
  {
    assert Insert(ByComplexity, P3, [P1]) == [P1, P3];
    assert [P2, P1][1..] == [P1];
  }

  lemma ComplexityTailInsertions()
    ensures Insert(ByComplexity, P4, [P1, P3]) == [P1, P4, P3]
  {
    assert Insert(ByComplexity, P4, [P3]) == [P4, P3];
    assert [P1, P3][1..] == [P3];
  }

  lemma ComplexityLastInsertion()
    ensures Insert(ByComplexity, P4, [P2, P1, P3]) == [P2, P1, P4, P3]
  {
    ComplexityTailInsertions();
    assert [P2, P1, P3][1..] == [P1, P3];
  }

  /** Projects 1 and 4 are both intermediate and keep their catalog order. */
  lemma ComplexitySortKeepsTiesInOrder()
    ensures RenderProjects(SeedProjects, NoFilters, "complexity") == Showing([P2, P1, P4, P3])
  {
    FilterNoFiltersIsIdentity(SeedProjects);
    SortFour(ByComplexity, P1, P2, P3, P4);
    ComplexityInsertions();
    ComplexityLastInsertion();
  }

  /** The technology row the shipped catalog produces: the first eight entries of its `Set`. */
  const SeedTechnologyButtons: seq<string> := ["all", "problem-solving", "algorithm design", "java",
    "python", "data cleaning", "statistical analysis", "requirement gathering"]

  lemma LowerFirstTechnologies()
    ensures LowerAll(P1.technologies) == ["problem-solving", "algorithm design", "java"]
  {
    assert Lower("Problem-solving") == "problem-solving";
    assert Lower("Algorithm design") == "algorithm design";
    assert Lower("Java") == "java";
  }

  lemma LowerSecondTechnologies()
    ensures LowerAll(P2.technologies) == ["python", "data cleaning", "statistical analysis", "problem-solving"]
  {
    assert Lower("Python") == "python";
    assert Lower("Data cleaning") == "data cleaning";
    assert Lower("Statistical analysis") == "statistical analysis";
    assert Lower("Problem-solving") == "problem-solving";
  }

  lemma LowerThirdTechnologies()
    ensures |LowerAll(P3.technologies)| == 4
    ensures LowerAll(P3.technologies)[0] == "requirement gathering"
    ensures LowerAll(P3.technologies)[1] == "software design"
  {
    assert Lower("Requirement gathering") == "requirement gathering";
    assert Lower("Software design") == "software design";
  }

  /** The technology values in catalog order, project by project. */
  lemma SeedTechnologyValues()
    ensures DimensionValues(SeedProjects, TechnologyDim)
         == LowerAll(P1.technologies) + LowerAll(P2.technologies) + LowerAll(P3.technologies) + LowerAll(P4.technologies)
  {
    var d := TechnologyDim;
    DimensionValuesCons(P4, [], d);
    assert [P4] == [P4] + [];
    DimensionValuesCons(P3, [P4], d);
    assert [P3, P4] == [P3] + [P4];
    DimensionValuesCons(P2, [P3, P4], d);
    assert [P2, P3, P4] == [P2] + [P3, P4];
    DimensionValuesCons(P1, [P2, P3, P4], d);
    assert SeedProjects == [P1] + [P2, P3, P4];
    var v1, v2, v3, v4 := LowerAll(P1.technologies), LowerAll(P2.technologies), LowerAll(P3.technologies), LowerAll(P4.technologies);
    assert v1 + (v2 + (v3 + (v4 + []))) == v1 + v2 + v3 + v4;
  }

  /** The technology set after each project. */
  const RowAfterFirst: seq<string> := ["all", "problem-solving", "algorithm design", "java"]
  const RowAfterSecond: seq<string> := ["all", "problem-solving", "algorithm design", "java",
    "python", "data cleaning", "statistical analysis"]

  lemma FirstProjectAdds()
    ensures AddOption([AllValue], "problem-solving") == ["all", "problem-solving"]
    ensures AddOption(["all", "problem-solving"], "algorithm design") == ["all", "problem-solving", "algorithm design"]
    ensures AddOption(["all", "problem-solving", "algorithm design"], "java") == RowAfterFirst
  {
  }

  lemma FirstProjectOptions()
    ensures AddAll([AllValue], LowerAll(P1.technologies)) == RowAfterFirst
  {
    LowerFirstTechnologies();
    AddAllThree([AllValue], "problem-solving", "algorithm design", "java");
    FirstProjectAdds();
  }

  lemma AddPython()
    ensures AddOption(RowAfterFirst, "python") == RowAfterFirst + ["python"]
  {
    assert "python" !in RowAfterFirst;
  }

  lemma AddDataCleaning()
    ensures AddOption(RowAfterFirst + ["python"], "data cleaning") == RowAfterFirst + ["python", "data cleaning"]
  {
    assert "data cleaning" !in RowAfterFirst + ["python"];
  }

  lemma AddStatisticalAnalysis()
    ensures AddOption(RowAfterFirst + ["python", "data cleaning"], "statistical analysis") == RowAfterSecond
  {
    assert "statistical analysis" !in RowAfterFirst + ["python", "data cleaning"];
  }

  lemma AddProblemSolvingAgain()
    ensures AddOption(RowAfterSecond, "problem-solving") == RowAfterSecond
  {
    assert RowAfterSecond[1] == "problem-solving";
  }

  lemma SecondProjectOptions()
    ensures AddAll(RowAfterFirst, LowerAll(P2.technologies)) == RowAfterSecond
  {
    LowerSecondTechnologies();
    AddAllFour(RowAfterFirst, "python", "data cleaning", "statistical analysis", "problem-solving");
    AddPython();
    AddDataCleaning();
    AddStatisticalAnalysis();
    AddProblemSolvingAgain();
  }

  /** The set is filled from the first two projects, then from the last two. */
  lemma SeedOptionSetByHalves()
    ensures OptionSet(SeedProjects, TechnologyDim)
         == AddAll(AddAll([AllValue], LowerAll(P1.technologies) + LowerAll(P2.technologies)),
                   LowerAll(P3.technologies) + LowerAll(P4.technologies))
  {
    var v1, v2, v3, v4 := LowerAll(P1.technologies), LowerAll(P2.technologies), LowerAll(P3.technologies), LowerAll(P4.technologies);
    SeedTechnologyValues();
    assert v1 + v2 + v3 + v4 == (v1 + v2) + (v3 + v4);
    AddAllConcat([AllValue], v1 + v2, v3 + v4);
  }

  /** The first two projects give seven entries, `"all"` included. */
  lemma FirstTwoProjectsOptions()
    ensures AddAll([AllValue], LowerAll(P1.technologies) + LowerAll(P2.technologies)) == RowAfterSecond
  {
    AddAllConcat([AllValue], LowerAll(P1.technologies), LowerAll(P2.technologies));
    FirstProjectOptions();
    SecondProjectOptions();
  }

  /** The first technology of the third project is the eighth entry; its later ones follow. */
  lemma ThirdProjectStartsOver(v3: seq<string>, v4: seq<string>)
    requires |v3| == 4 && v3[0] == "requirement gathering"
    ensures AddAll(RowAfterSecond, v3 + v4) == AddAll(SeedTechnologyButtons, v3[1..] + v4)
  {
    assert v3 + v4 == [v3[0]] + (v3[1..] + v4);
    AddAllCons(RowAfterSecond, v3[0], v3[1..] + v4);
    EighthOption();
  }

  lemma SeedOptionSetSplit()
    ensures |LowerAll(P3.technologies)| == 4
    ensures OptionSet(SeedProjects, TechnologyDim)
         == AddAll(SeedTechnologyButtons, LowerAll(P3.technologies)[1..] + LowerAll(P4.technologies))
  {
    SeedOptionSetByHalves();
    FirstTwoProjectsOptions();
    LowerThirdTechnologies();
    ThirdProjectStartsOver(LowerAll(P3.technologies), LowerAll(P4.technologies));
  }

  lemma EighthOption()
    ensures AddOption(RowAfterSecond, "requirement gathering") == SeedTechnologyButtons
  {
    assert "requirement gathering" !in RowAfterSecond;
  }

  /** The shipped catalog has more than eight technology options, and the row is their first eight. */
  lemma SeedOptionSetIsLong()
    ensures |OptionSet(SeedProjects, TechnologyDim)| > MaxTechnologyButtons
    ensures OptionSet(SeedProjects, TechnologyDim)[..8] == SeedTechnologyButtons
  {
    SeedOptionSetSplit();
    LowerThirdTechnologies();
    var rest := LowerAll(P3.technologies)[1..] + LowerAll(P4.technologies);
    assert rest[0] == "software design";
    assert "software design" !in SeedTechnologyButtons;
    AddAllGrows(SeedTechnologyButtons, rest, "software design");
  }

  /**
   With the shipped catalog the technology row shows `"all"` and the first
   seven technologies in catalog order; the rest of the third project's and
   all of the fourth project's technologies get no button.
   */
  lemma SeedTechnologyRow()
    ensures FilterButtons(SeedProjects, TechnologyDim) == SeedTechnologyButtons
  {
    SeedOptionSetIsLong();
    var all := OptionSet(SeedProjects, TechnologyDim);
    var r := FilterButtons(SeedProjects, TechnologyDim);
    assert |r| == 8;
    assert forall i | 0 <= i < 8 :: r[i] == all[..8][i];
  }
}
