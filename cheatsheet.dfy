/**
 * The cheatsheet page (src/pages/Cheatsheet.tsx): the language chips and
 * the combined search and language filter.
 */
module Cheatsheets {
  import opened Wrappers
  import opened Text
  import Lists

  /** A row of `cheatsheets`; the description and thumbnail may be `null`. */
  datatype Cheatsheet = Cheatsheet(
    id: string, title: string, description: Option<string>, language: string,
    url: string, thumbnailUrl: Option<string>)

  /** The chip that lifts the language constraint. */
  const AllChip := "all"

  /** `cheatsheets.map((cs) => cs.language)`. */
  function LanguagesOf(sheets: seq<Cheatsheet>): (r: seq<string>)
    ensures |r| == |sheets|
    ensures forall i :: 0 <= i < |sheets| ==> r[i] == sheets[i].language
  {
    seq(|sheets|, i requires 0 <= i < |sheets| => sheets[i].language)
  }

  /** `languages`: the "all" chip, then every language once, in order of first appearance. */
  function Languages(sheets: seq<Cheatsheet>): (r: seq<string>)
    ensures |r| >= 1 && r[0] == AllChip
    ensures forall i :: 0 <= i < |sheets| ==> sheets[i].language in r[1..]
    ensures forall x :: x in r[1..] ==> exists i :: 0 <= i < |sheets| && sheets[i].language == x
    ensures Lists.NoDuplicates(r[1..])
  {
    var langs := LanguagesOf(sheets);
    var distinct := Lists.Distinct(langs);
    assert forall x :: x in distinct ==> exists i :: 0 <= i < |sheets| && sheets[i].language == x by {
      forall x | x in distinct
        ensures exists i :: 0 <= i < |sheets| && sheets[i].language == x
      {
        var i :| 0 <= i < |langs| && langs[i] == x;
      }
    }
    [AllChip] + distinct
  }

  /** A cheatsheet added at the end adds a chip exactly when its language is new, at the end of the row. */
  lemma LanguagesSnoc(sheets: seq<Cheatsheet>, cs: Cheatsheet)
    ensures Languages(sheets + [cs])
         == Languages(sheets) + (if cs.language in LanguagesOf(sheets) then [] else [cs.language])
  {
    assert LanguagesOf(sheets + [cs]) == LanguagesOf(sheets) + [cs.language];
    Lists.DistinctSnoc(LanguagesOf(sheets), cs.language);
  }

  /** The search matches the title, or a description that is present, ignoring case. */
  predicate MatchesSearch(cs: Cheatsheet, term: string) {
    IncludesIgnoringCase(cs.title, term)
    || (cs.description.Some? && IncludesIgnoringCase(cs.description.value, term))
  }

  /** "all" imposes nothing; any other chip requires that exact language. */
  predicate MatchesLanguage(cs: Cheatsheet, selected: string) {
    selected == AllChip || cs.language == selected
  }

  /** `filteredCheatsheets`: the cheatsheets meeting both conditions, in their original order. */
  function FilteredCheatsheets(sheets: seq<Cheatsheet>, term: string, selected: string): (r: seq<Cheatsheet>)
    ensures |r| == Lists.Count(sheets, cs => MatchesSearch(cs, term) && MatchesLanguage(cs, selected)) <= |sheets|
    ensures forall cs :: cs in r ==> cs in sheets && MatchesSearch(cs, term) && MatchesLanguage(cs, selected)
    ensures forall i :: 0 <= i < |sheets| && MatchesSearch(sheets[i], term) && MatchesLanguage(sheets[i], selected) ==>
      sheets[i] in r
    ensures Lists.IsSubsequence(r, sheets)
  {
    Lists.Filter(sheets, cs => MatchesSearch(cs, term) && MatchesLanguage(cs, selected))
  }

  /** An empty search with the "all" chip keeps every cheatsheet. */
  lemma NoFilterKeepsAll(sheets: seq<Cheatsheet>)
    ensures FilteredCheatsheets(sheets, "", AllChip) == sheets
  {
    forall i | 0 <= i < |sheets|
      ensures MatchesSearch(sheets[i], "")
    {
      EmptyQueryMatches(sheets[i].title);
    }
  }

  /** Every language chip other than "all" selects at least one cheatsheet when the search is empty. */
  lemma EveryChipSelectsSomething(sheets: seq<Cheatsheet>, chip: string)
    requires chip in Languages(sheets)[1..]
    ensures FilteredCheatsheets(sheets, "", chip) != []
  {
    var i :| 0 <= i < |sheets| && sheets[i].language == chip;
    EmptyQueryMatches(sheets[i].title);
    assert sheets[i] in FilteredCheatsheets(sheets, "", chip);
  }

  /** A cheatsheet without a description is found by its title alone. */
  lemma NullDescriptionByTitle(cs: Cheatsheet, term: string)
    requires cs.description.None?
    ensures MatchesSearch(cs, term) <==> IncludesIgnoringCase(cs.title, term)
  {
  }

  /** The chip row holds no chip twice exactly when no cheatsheet's language is itself "all". */
  lemma ChipsDistinct(sheets: seq<Cheatsheet>)
    ensures Lists.NoDuplicates(Languages(sheets)) <==> AllChip !in LanguagesOf(sheets)
  {
    var r := Languages(sheets);
    if AllChip in LanguagesOf(sheets) {
      var i :| 0 <= i < |sheets| && LanguagesOf(sheets)[i] == AllChip;
      assert AllChip in r[1..];
      var j :| 0 <= j < |r[1..]| && r[1..][j] == AllChip;
      assert r[0] == r[j + 1];
    } else {
      forall j | 1 <= j < |r|
        ensures r[0] != r[j]
      {
        assert r[j] in r[1..];
        var k :| 0 <= k < |sheets| && sheets[k].language == r[j];
        assert LanguagesOf(sheets)[k] == r[j];
      }
      forall i, j | 0 <= i < j < |r|
        ensures r[i] != r[j]
      {
        if i > 0 {
          assert r[i] == r[1..][i - 1] && r[j] == r[1..][j - 1];
        }
      }
    }
  }
}
