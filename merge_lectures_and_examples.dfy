/**
 * merge_lectures_and_examples.py: for each lecture number, in ascending
 * order, merge the lecture's files ("001a.pdf", "001b.pdf", ...) and then
 * that number's example problem file ("ex001prb.pdf") when there is one,
 * each without its last page, and pad the lecture's block to an even count.
 */
module MergeLecturesAndExamples {
  import opened Wrappers
  import opened Text
  import opened Sorting
  import opened Grouping
  import opened FileNames
  import opened Pages

  const LectureFolder: string := "lecture-notes"
  const ExampleFolder: string := "examples/problems"

  /**
   * collect_lecture_files: scan the sorted listing and gather each lecture
   * number's paths. The keys are the lecture numbers that occur, each list
   * holds that number's files and is already in ascending order.
   */
  method CollectLectureFiles(listing: seq<string>) returns (order: seq<string>, mapping: map<string, seq<string>>)
    ensures order == KeysSeen(SortStrings(listing), LectureKey)
    ensures forall k :: k in mapping <==> k in order
    ensures forall k :: k in mapping <==> HasKey(listing, LectureKey, k)
    ensures forall k :: k in mapping ==>
              mapping[k] == PathsWithKey(LectureFolder, SortStrings(listing), LectureKey, k) && SortedStrings(mapping[k])
  {
    var names := SortStrings(listing);
    order, mapping := Collect(LectureFolder, names, LectureKey);
    SortStringsSorted(listing);
    forall k | k in mapping ensures SortedStrings(mapping[k]) {
      PathsWithKeySorted(LectureFolder, names, LectureKey, k);
    }
    forall k ensures k in mapping <==> HasKey(listing, LectureKey, k) {
      HasKeyPermutation(names, listing, LectureKey, k);
    }
  }

  /** The example path stored under number `k` after scanning `names`: the last name with that number wins. */
  function ExampleFor(names: seq<string>, k: string): Option<string>
    decreases |names|
  {
    if names == [] then None
    else
      var last := names[|names| - 1];
      if ExampleKey(last) == Some(k) then Some(Join(ExampleFolder, last)) else ExampleFor(names[..|names| - 1], k)
  }

  /** `names[i]` is the last name in the scan that carries example number `k`. */
  predicate IsLastWithKey(names: seq<string>, k: string, i: int)
  {
    0 <= i < |names| && ExampleKey(names[i]) == Some(k) &&
    forall j :: i < j < |names| ==> ExampleKey(names[j]) != Some(k)
  }

  /**
   * A number has an example exactly when some name carries it, and the path
   * kept is that of the last such name in scan order.
   */
  lemma {:induction false} ExampleForMeaning(names: seq<string>, k: string)
    ensures ExampleFor(names, k).None? <==> !HasKey(names, ExampleKey, k)
    ensures ExampleFor(names, k).Some? ==>
            exists i :: IsLastWithKey(names, k, i) && ExampleFor(names, k).value == Join(ExampleFolder, names[i])
    decreases |names|
  {
    if names != [] {
      var init, last := names[..|names| - 1], names[|names| - 1];
      HasKeyOfPrefix(names, ExampleKey, k);
      if ExampleKey(last) == Some(k) {
        assert IsLastWithKey(names, k, |names| - 1);
      } else {
        ExampleForMeaning(init, k);
        if ExampleFor(init, k).Some? {
          var i :| IsLastWithKey(init, k, i) && ExampleFor(init, k).value == Join(ExampleFolder, init[i]);
          assert names[i] == init[i];
          assert IsLastWithKey(names, k, i);
        }
      }
    }
  }

  /** collect_example_files: `mapping[num] = os.path.join(folder, f)` for every matching name, in scan order. */
  method CollectExampleFiles(listing: seq<string>) returns (mapping: map<string, string>)
    ensures forall k :: k in mapping <==> HasKey(listing, ExampleKey, k)
    ensures forall k :: k in mapping ==> ExampleFor(listing, k) == Some(mapping[k])
  {
    mapping := map[];
    for i := 0 to |listing|
      invariant forall k :: k in mapping <==> ExampleFor(listing[..i], k).Some?
      invariant forall k :: k in mapping ==> ExampleFor(listing[..i], k) == Some(mapping[k])
    {
      assert listing[..i + 1][..i] == listing[..i];
      match ExampleKey(listing[i]) {
        case None =>
        case Some(num) =>
          mapping := mapping[num := Join(ExampleFolder, listing[i])];
      }
    }
    assert listing[..|listing|] == listing;
    forall k ensures k in mapping <==> HasKey(listing, ExampleKey, k) {
      ExampleForMeaning(listing, k);
    }
  }

  /** `sorted(lectures.keys())` */
  function LectureOrder(lectureListing: seq<string>): seq<string>
  {
    SortStrings(KeysSeen(SortStrings(lectureListing), LectureKey))
  }

  /** The paths of one lecture block: the lecture's files in name order, then its example if any. */
  function BlockPaths(lecturePaths: seq<string>, example: Option<string>): seq<string>
  {
    lecturePaths + (match example case Some(p) => [p] case None => [])
  }

  /** Every block of the run, in the order the lecture numbers are processed. */
  function Blocks(lectureListing: seq<string>, exampleListing: seq<string>): seq<seq<string>>
  {
    var names := SortStrings(lectureListing);
    var nums := LectureOrder(lectureListing);
    seq(|nums|, i requires 0 <= i < |nums| =>
      BlockPaths(SortStrings(PathsWithKey(LectureFolder, names, LectureKey, nums[i])), ExampleFor(exampleListing, nums[i])))
  }

  /**
   * The lectures processed are exactly the lecture numbers that occur, each
   * once. They are sorted as strings, which for these three-digit numbers is
   * ascending numeric order.
   */
  lemma LectureOrderMeaning(lectureListing: seq<string>)
    ensures Distinct(LectureOrder(lectureListing))
    ensures forall k :: k in LectureOrder(lectureListing) <==> HasKey(lectureListing, LectureKey, k)
    ensures SortedStrings(LectureOrder(lectureListing))
    ensures forall i, j :: 0 <= i < j < |LectureOrder(lectureListing)| ==>
              var a, b := LectureOrder(lectureListing)[i], LectureOrder(lectureListing)[j];
              |a| == |b| == 3 && AllDigits(a) && AllDigits(b) && DecimalValue(a) < DecimalValue(b)
  {
    var names := SortStrings(lectureListing);
    var seen := KeysSeen(names, LectureKey);
    var nums := LectureOrder(lectureListing);
    KeysSeenDistinct(names, LectureKey);
    DistinctPermutation(seen, nums);
    SortStringsSorted(seen);
    forall k ensures k in nums <==> HasKey(lectureListing, LectureKey, k) {
      KeysSeenMembership(names, LectureKey, k);
      HasKeyPermutation(names, lectureListing, LectureKey, k);
      assert k in nums <==> k in multiset(seen);
    }
    forall k | k in nums ensures |k| == 3 && AllDigits(k) {
      var f :| 0 <= f < |lectureListing| && LectureKey(lectureListing[f]) == Some(k);
    }
    forall i, j | 0 <= i < j < |nums|
      ensures |nums[i]| == |nums[j]| == 3 && AllDigits(nums[i]) && AllDigits(nums[j]) && DecimalValue(nums[i]) < DecimalValue(nums[j])
    {
      var a, b := nums[i], nums[j];
      assert a in nums && b in nums;
      DigitOrderIsNumericOrder(a, b);
      if DecimalValue(a) == DecimalValue(b) {
        DigitStringsWithEqualValue(a, b);
      }
    }
  }

  /**
   * Within a block all lecture pages come before the example's pages, and
   * the filler is sized from the first page of the first document with a
   * page, lecture files before the example, or A4 when there is none.
   */
  lemma LecturesBeforeExample(lectureDocs: seq<Doc>, exampleDoc: Doc)
    ensures Contribution(lectureDocs + [exampleDoc]) == Contribution(lectureDocs) + AllButLast(exampleDoc)
    ensures FillerSize(lectureDocs + [exampleDoc]) ==
            if RefSize(lectureDocs).Some? then RefSize(lectureDocs).value
            else if |exampleDoc| > 0 then exampleDoc[0].size
            else A4
  {
    assert (lectureDocs + [exampleDoc])[..|lectureDocs|] == lectureDocs;
  }

  /**
   * One lecture block: its files, then its example, each without the last
   * page; then a filler when the block added an odd number of pages.
   */
  method MergeLectureBlock(out: Writer, lecturePaths: seq<string>, example: Option<string>, store: Store)
    returns (r: Option<Failure>)
    modifies out
    ensures Load(BlockPaths(lecturePaths, example), store).Err? ==>
            r == Some(Load(BlockPaths(lecturePaths, example), store).error)
    ensures Load(BlockPaths(lecturePaths, example), store).Ok? ==>
            r == None && out.pages == old(out.pages) + Block(Load(BlockPaths(lecturePaths, example), store).value)
  {
    ghost var before := out.pages;
    ghost var paths := BlockPaths(lecturePaths, example);
    var start := |out.pages|;
    var found := AppendDocuments(out, lecturePaths, store);
    if found.Err? {
      assert paths[..|lecturePaths|] == lecturePaths;
      LoadPrefixFailure(paths, store, |lecturePaths|);
      return Some(found.error);
    }
    var size := found.value;
    ghost var docs := Load(lecturePaths, store).value;
    if example.Some? {
      var exPath := example.value;
      LoadWithExample(lecturePaths, exPath, store);
      var exFound := AppendExample(out, exPath, size, store);
      if exFound.Err? {
        return Some(exFound.error);
      }
      size := exFound.value;
      LecturesBeforeExample(docs, store[exPath]);
      docs := docs + [store[exPath]];
    } else {
      assert paths == lecturePaths;
    }
    assert Load(paths, store) == Ok(docs);
    assert out.pages == before + Contribution(docs);
    assert out.pages[..start] == before && out.pages[start..] == Contribution(docs);
    var _ := PadSince(out, start, if size.Some? then size.value else A4);
    return None;
  }

  /**
   * The example of one lecture: its pages but the last, and the page size
   * taken from its first page when the lecture files gave none.
   */
  method AppendExample(out: Writer, exPath: string, size: Option<Size>, store: Store) returns (r: Result<Option<Size>, Failure>)
    modifies out
    ensures exPath !in store ==> r == Err(Unreadable(exPath))
    ensures exPath in store ==>
            r == Ok(if size.None? && |store[exPath]| > 0 then Some(store[exPath][0].size) else size) &&
            out.pages == old(out.pages) + AllButLast(store[exPath])
  {
    if exPath !in store {
      return Err(Unreadable(exPath));
    }
    var doc := store[exPath];
    r := Ok(size);
    if |doc| > 0 {
      if size.None? {
        r := Ok(Some(doc[0].size));
      }
      AppendAllButLast(out, doc);
    }
  }

  /** Opening a lecture's files and then its example, after the lecture files opened. */
  lemma LoadWithExample(lecturePaths: seq<string>, exPath: string, store: Store)
    requires Load(lecturePaths, store).Ok?
    ensures BlockPaths(lecturePaths, Some(exPath)) == lecturePaths + [exPath]
    ensures Load(lecturePaths + [exPath], store) ==
            if exPath in store then Ok(Load(lecturePaths, store).value + [store[exPath]]) else Err(Unreadable(exPath))
  {
    assert (lecturePaths + [exPath])[..|lecturePaths|] == lecturePaths;
  }

  /** The two dicts the collectors built, read back at the `i`-th lecture processed, give that lecture's block. */
  lemma BlockAt(lectureListing: seq<string>, exampleListing: seq<string>, order: seq<string>,
                lectures: map<string, seq<string>>, examples: map<string, string>, i: nat)
    requires order == KeysSeen(SortStrings(lectureListing), LectureKey)
    requires forall k :: k in lectures <==> k in order
    requires forall k :: k in lectures ==> lectures[k] == PathsWithKey(LectureFolder, SortStrings(lectureListing), LectureKey, k)
    requires forall k :: k in examples <==> HasKey(exampleListing, ExampleKey, k)
    requires forall k :: k in examples ==> ExampleFor(exampleListing, k) == Some(examples[k])
    requires i < |LectureOrder(lectureListing)|
    ensures LectureOrder(lectureListing)[i] in lectures
    ensures var num := LectureOrder(lectureListing)[i];
            BlockPaths(SortStrings(lectures[num]), if num in examples then Some(examples[num]) else None) ==
            Blocks(lectureListing, exampleListing)[i]
  {
    var num := LectureOrder(lectureListing)[i];
    assert num in multiset(order);
    ExampleForMeaning(exampleListing, num);
  }

  /** The script: the merged pages, or the failure that stops it before anything is written. */
  method Run(lectureListing: seq<string>, exampleListing: seq<string>, store: Store) returns (r: Result<seq<Page>, Failure>)
    ensures r == OutputPages(MergeGroups(Blocks(lectureListing, exampleListing), store))
  {
    var order, lectures := CollectLectureFiles(lectureListing);
    var examples := CollectExampleFiles(exampleListing);
    var nums := SortStrings(order);
    ghost var blocks := Blocks(lectureListing, exampleListing);
    var out := new Writer();
    ghost var loaded: seq<seq<Doc>> := [];
    for i := 0 to |nums|
      invariant LoadGroups(blocks[..i], store) == Ok(loaded)
      invariant out.pages == MergeDocs(loaded).pages
    {
      BlockAt(lectureListing, exampleListing, order, lectures, examples, i);
      var num := nums[i];
      var example := if num in examples then Some(examples[num]) else None;
      LoadGroupsStep(blocks, store, i, loaded);
      var res := MergeLectureBlock(out, SortStrings(lectures[num]), example, store);
      if res.Some? {
        assert MergeGroups(blocks, store) == Err(res.value);
        return Err(res.value);
      }
      ghost var docs := Load(blocks[i], store).value;
      MergeDocsStep(loaded, docs);
      loaded := loaded + [docs];
    }
    assert blocks[..|nums|] == blocks;
    assert MergeGroups(blocks, store) == Ok(MergeDocs(loaded));
    return Ok(out.pages);
  }
}
