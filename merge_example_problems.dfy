/**
 * merge_example_problems.py: select the "ex<3 digits>prb.pdf" files of
 * "examples/problems", stop if there are none, order them by their number,
 * and merge each file without its last page, padding each file's pages to
 * an even count with a filler sized from that file's first page.
 */
module MergeExampleProblems {
  import opened Wrappers
  import opened Text
  import opened Sorting
  import opened FileNames
  import opened Pages

  const Folder: string := "examples/problems"

  /** The filter `pattern.match(f)` with `ex(\d{3})prb\.pdf`, case ignored. */
  predicate Selected(f: string)
  {
    ExampleKey(f).Some?
  }

  /** The `files` list after the scan: the selected names, in listing order. */
  function Selection(listing: seq<string>): seq<string>
    decreases |listing|
  {
    if listing == [] then []
    else
      var last := listing[|listing| - 1];
      Selection(listing[..|listing| - 1]) + (if Selected(last) then [last] else [])
  }

  /** The selection holds exactly the selected names of the listing, as often as the listing does. */
  lemma {:induction false} SelectionMeaning(listing: seq<string>, f: string)
    ensures f in Selection(listing) <==> f in listing && Selected(f)
    ensures multiset(Selection(listing))[f] == if Selected(f) then multiset(listing)[f] else 0
    decreases |listing|
  {
    if listing != [] {
      var init := listing[..|listing| - 1];
      assert listing == init + [listing[|listing| - 1]];
      SelectionMeaning(init, f);
    }
  }

  /** The scan loop `if pattern.match(f): files.append(f)`. */
  method CollectFiles(listing: seq<string>) returns (files: seq<string>)
    ensures files == Selection(listing)
    ensures forall f :: f in files <==> f in listing && Selected(f)
  {
    files := [];
    for i := 0 to |listing|
      invariant files == Selection(listing[..i])
    {
      assert listing[..i + 1][..i] == listing[..i];
      if Selected(listing[i]) {
        files := files + [listing[i]];
      }
    }
    assert listing[..|listing|] == listing;
    forall f ensures f in files <==> f in listing && Selected(f) {
      SelectionMeaning(listing, f);
    }
  }

  /**
   * The sort key: the three digits the filter captured, read as a number.
   * This is the corrected key; the script's own key is SortKeyAsWritten.
   */
  function ExampleNumber(f: string): int
  {
    match ExampleKey(f)
    case Some(k) => DecimalValue(k)
    case None => 0
  }

  /** Every selected name is keyed by its own three digits, whatever the case of its letters. */
  lemma ExampleNumberIsCapturedNumber(f: string, g: string)
    requires Selected(f)
    ensures AllDigits(f[2..5]) && ExampleNumber(f) == DecimalValue(f[2..5]) && 0 <= ExampleNumber(f) < 1000
    ensures SameFoldStrings(f, g) ==> Selected(g) && ExampleNumber(g) == ExampleNumber(f)
  {
    ExampleKeyMeaning(f);
    if SameFoldStrings(f, g) {
      MatchIgnoresCase(ExamplePattern, f, g);
      ExampleKeyMeaning(g);
      forall i | 2 <= i < 5 ensures f[i] == g[i] {
        assert f[2..5][i - 2] == f[i];
        FoldToDigit(f[i], g[i]);
      }
      assert f[2..5] == g[2..5];
    }
  }

  /** `re.search(r"ex(\d{3})", f)` from position `i` on: case-sensitive, the first occurrence wins. */
  function SearchFrom(f: string, i: nat): Option<int>
    decreases |f| - i
  {
    if i + 5 > |f| then None
    else if f[i] == 'e' && f[i + 1] == 'x' && AllDigits(f[i + 2..i + 5]) then Some(DecimalValue(f[i + 2..i + 5]))
    else SearchFrom(f, i + 1)
  }

  /** The script's sort key, `int(re.search(r"ex(\d{3})", x).group(1))`; None is the AttributeError raised when nothing is found. */
  function SortKeyAsWritten(f: string): Option<int>
  {
    SearchFrom(f, 0)
  }

  /**
   * The filter ignores case but the sort key does not: "EX001prb.pdf" is
   * selected, yet the search finds no lower-case "ex" in it, so the sort
   * raises before anything is merged.
   */
  lemma SortKeyAsWrittenFailsOnUpperCase()
    ensures Selected("EX001prb.pdf")
    ensures SortKeyAsWritten("EX001prb.pdf") == None
  {
    var f := "EX001prb.pdf";
    ExampleKeyMeaning(f);
    assert SameFoldStrings(f[..2], "ex");
    assert AllDigits(f[2..5]);
    assert SameFoldStrings(f[5..12], "prb.pdf");
  }

  /** On names that start with a lower-case "ex" the script's key and the corrected key agree. */
  lemma SortKeyAsWrittenAgreesOnLowerCase(f: string)
    requires Selected(f) && f[0] == 'e' && f[1] == 'x'
    ensures SortKeyAsWritten(f) == Some(ExampleNumber(f))
  {
    ExampleNumberIsCapturedNumber(f, f);
  }

  /**
   * One file's contribution: nothing when it has at most one page; else all
   * its pages but the last, in order, and one filler sized from its first
   * page when that count is odd.
   */
  function FileBlock(doc: Doc): (r: seq<Page>)
    ensures |r| % 2 == 0
    ensures |doc| <= 1 ==> r == []
    ensures |doc| >= 2 ==> |r| >= |doc| - 1 && r[..|doc| - 1] == doc[..|doc| - 1]
    ensures |doc| >= 2 ==> (|r| == |doc| <==> (|doc| - 1) % 2 == 1)
    ensures |doc| >= 2 && |r| == |doc| ==> r[|doc| - 1] == Filler(doc[0].size)
  {
    if |doc| <= 1 then [] else Pad(AllButLast(doc), doc[0].size)
  }

  /** Per-file merging is the group merger applied to a group of that one file. */
  lemma FileBlockIsSingletonBlock(doc: Doc)
    ensures FileBlock(doc) == Block([doc])
  {
    var one := [doc];
    assert one[..0] == [];
    assert Contribution(one) == AllButLast(doc);
    assert RefSize(one) == if |doc| > 0 then Some(doc[0].size) else None;
  }

  /** Merging the files at `paths` in order: the output, or the first file that cannot be read. */
  function MergeFiles(paths: seq<string>, store: Store): Result<seq<Page>, Failure>
    decreases |paths|
  {
    if paths == [] then Ok([])
    else
      match MergeFiles(paths[..|paths| - 1], store)
      case Err(e) => Err(e)
      case Ok(pages) =>
        var p := paths[|paths| - 1];
        if p in store then Ok(pages + FileBlock(store[p])) else Err(Unreadable(p))
  }

  lemma {:induction false} MergeFilesPrefixFailure(paths: seq<string>, store: Store, n: nat)
    requires n <= |paths| && MergeFiles(paths[..n], store).Err?
    ensures MergeFiles(paths, store) == MergeFiles(paths[..n], store)
    decreases |paths|
  {
    if n < |paths| {
      assert paths[..|paths| - 1][..n] == paths[..n];
      MergeFilesPrefixFailure(paths[..|paths| - 1], store, n);
    } else {
      assert paths[..n] == paths;
    }
  }

  /** Each file as a group of its own. */
  function Singletons(paths: seq<string>): seq<seq<string>>
  {
    seq(|paths|, i requires 0 <= i < |paths| => [paths[i]])
  }

  /**
   * The example-only script is the group merger over one-file groups: same
   * pages, same failures; so every file's share of the output is even.
   */
  lemma {:induction false} MergeFilesAsGroups(paths: seq<string>, store: Store)
    ensures MergeFiles(paths, store) == OutputPages(MergeGroups(Singletons(paths), store))
    decreases |paths|
  {
    if paths != [] {
      var init, p := paths[..|paths| - 1], paths[|paths| - 1];
      var groups := Singletons(paths);
      assert groups[..|groups| - 1] == Singletons(init);
      assert groups[|groups| - 1] == [p];
      MergeFilesAsGroups(init, store);
      LoadOne(p, store);
      if LoadGroups(Singletons(init), store).Ok? && p in store {
        var earlier := LoadGroups(Singletons(init), store).value;
        assert LoadGroups(groups, store) == Ok(earlier + [[store[p]]]);
        MergeDocsStep(earlier, [store[p]]);
        FileBlockIsSingletonBlock(store[p]);
      }
    }
  }

  lemma LoadOne(p: string, store: Store)
    ensures Load([p], store) == if p in store then Ok([store[p]]) else Err(Unreadable(p))
  {
    assert [p][..0] == [];
    assert Load([], store) == Ok([]);
    if p in store {
      assert [] + [store[p]] == [store[p]];
    }
  }

  /** The files to merge, in order, or the abort when none was selected. */
  function Plan(listing: seq<string>): Result<seq<string>, Failure>
  {
    var files := Selection(listing);
    if files == [] then Err(NoMatchingFiles)
    else
      var ordered := SortByRank(files, ExampleNumber);
      Ok(seq(|ordered|, i requires 0 <= i < |ordered| => Join(Folder, ordered[i])))
  }

  /** What the whole script produces: the merged pages, or why it stopped before writing. */
  function RunResult(listing: seq<string>, store: Store): Result<seq<Page>, Failure>
  {
    match Plan(listing)
    case Err(e) => Err(e)
    case Ok(paths) => MergeFiles(paths, store)
  }

  lemma {:induction false} MergeFilesOnlyUnreadable(paths: seq<string>, store: Store)
    ensures MergeFiles(paths, store).Err? ==> MergeFiles(paths, store).error.Unreadable?
    decreases |paths|
  {
    if paths != [] {
      MergeFilesOnlyUnreadable(paths[..|paths| - 1], store);
    }
  }

  /** The run aborts for want of input exactly when no name in the listing is selected. */
  lemma AbortsIffNothingSelected(listing: seq<string>, store: Store)
    ensures RunResult(listing, store) == Err(NoMatchingFiles) <==> forall i :: 0 <= i < |listing| ==> !Selected(listing[i])
  {
    if Selection(listing) == [] {
      forall i | 0 <= i < |listing| ensures !Selected(listing[i]) {
        SelectionMeaning(listing, listing[i]);
      }
    } else {
      SelectionMeaning(listing, Selection(listing)[0]);
      MergeFilesOnlyUnreadable(Plan(listing).value, store);
    }
  }

  /** The files are merged in ascending order of their numbers; files with one number keep listing order. */
  lemma FilesInNumberOrder(listing: seq<string>)
    ensures SortedByRank(SortByRank(Selection(listing), ExampleNumber), ExampleNumber)
    ensures forall v :: WithRank(SortByRank(Selection(listing), ExampleNumber), ExampleNumber, v) ==
                        WithRank(Selection(listing), ExampleNumber, v)
  {
    SortByRankSorted(Selection(listing), ExampleNumber);
    forall v ensures WithRank(SortByRank(Selection(listing), ExampleNumber), ExampleNumber, v) ==
                     WithRank(Selection(listing), ExampleNumber, v) {
      SortByRankStable(Selection(listing), ExampleNumber, v);
    }
  }

  /** The loop body for one file. */
  method MergeFile(out: Writer, path: string, store: Store) returns (r: Option<Failure>)
    modifies out
    ensures path !in store ==> r == Some(Unreadable(path))
    ensures path in store ==> r == None && out.pages == old(out.pages) + FileBlock(store[path])
  {
    if path !in store {
      return Some(Unreadable(path));
    }
    var doc := store[path];
    var nPages := |doc|;
    if nPages <= 1 {
      return None;
    }
    var size := doc[0].size;
    AppendAllButLast(out, doc);
    if (nPages - 1) % 2 != 0 {
      out.AddPage(Filler(size));
    }
    return None;
  }

  /** The planned paths are the sorted selected names, each joined to the folder. */
  lemma PlanPaths(listing: seq<string>)
    requires Selection(listing) != []
    ensures var ordered := SortByRank(Selection(listing), ExampleNumber);
            Plan(listing).Ok? && |Plan(listing).value| == |ordered| &&
            forall i :: 0 <= i < |ordered| ==> Plan(listing).value[i] == Join(Folder, ordered[i])
  {
  }

  /** One more file merged after the first `i` merged without failure. */
  lemma MergeFilesStep(paths: seq<string>, store: Store, i: nat, pages: seq<Page>)
    requires i < |paths| && MergeFiles(paths[..i], store) == Ok(pages)
    ensures paths[i] !in store ==> MergeFiles(paths, store) == Err(Unreadable(paths[i]))
    ensures paths[i] in store ==> MergeFiles(paths[..i + 1], store) == Ok(pages + FileBlock(store[paths[i]]))
  {
    assert paths[..i + 1][..i] == paths[..i];
    if paths[i] !in store {
      MergeFilesPrefixFailure(paths, store, i + 1);
    }
  }

  /** The script, with the corrected sort key. */
  method Run(listing: seq<string>, store: Store) returns (r: Result<seq<Page>, Failure>)
    ensures r == RunResult(listing, store)
  {
    var files := CollectFiles(listing);
    if files == [] {
      return Err(NoMatchingFiles);
    }
    files := SortByRank(files, ExampleNumber);
    PlanPaths(listing);
    ghost var paths := Plan(listing).value;
    var out := new Writer();
    for i := 0 to |files|
      invariant MergeFiles(paths[..i], store) == Ok(out.pages)
    {
      var path := Join(Folder, files[i]);
      MergeFilesStep(paths, store, i, out.pages);
      var res := MergeFile(out, path, store);
      if res.Some? {
        return Err(res.value);
      }
    }
    assert paths[..|files|] == paths;
    return Ok(out.pages);
  }
}
