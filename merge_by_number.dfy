/**
 * merge_by_number.py: group the names in "lecture-notes" by the number they
 * start with, then for each number in ascending integer order merge that
 * number's files in name order, dropping each file's last page and padding
 * the number's pages to an even count; count the filler pages added.
 */
module MergeByNumber {
  import opened Wrappers
  import opened Text
  import opened Sorting
  import opened Grouping
  import opened FileNames
  import opened Pages

  const Folder: string := "lecture-notes"

  /** `int(number)`; every key is a digit string (NumberKey's contract). */
  function KeyValue(k: string): int
  {
    if AllDigits(k) then DecimalValue(k) else 0
  }

  /** `sorted(files_by_number.keys(), key=int)`: the dict's keys, stably sorted by value. */
  function NumberOrder(listing: seq<string>): seq<string>
  {
    SortByRank(KeysSeen(listing, NumberKey), KeyValue)
  }

  /** Each number's paths, `sorted(files_by_number[number])`, in the order the numbers are processed. */
  function OrderedGroups(listing: seq<string>): seq<seq<string>>
  {
    var numbers := NumberOrder(listing);
    seq(|numbers|, i requires 0 <= i < |numbers| => SortStrings(PathsWithKey(Folder, listing, NumberKey, numbers[i])))
  }

  /**
   * The numbers processed are exactly the numbers that occur, each once, in
   * ascending integer order; numbers of equal value ("1" and "01") keep the
   * order in which the scan first met them.
   */
  lemma NumberOrderMeaning(listing: seq<string>)
    ensures Distinct(NumberOrder(listing))
    ensures forall k :: k in NumberOrder(listing) <==> HasKey(listing, NumberKey, k)
    ensures SortedByRank(NumberOrder(listing), KeyValue)
    ensures forall v :: WithRank(NumberOrder(listing), KeyValue, v) == WithRank(KeysSeen(listing, NumberKey), KeyValue, v)
  {
    var seen := KeysSeen(listing, NumberKey);
    KeysSeenDistinct(listing, NumberKey);
    DistinctPermutation(seen, NumberOrder(listing));
    forall k ensures k in NumberOrder(listing) <==> HasKey(listing, NumberKey, k) {
      KeysSeenMembership(listing, NumberKey, k);
      assert k in NumberOrder(listing) <==> k in multiset(seen);
    }
    SortByRankSorted(seen, KeyValue);
    forall v ensures WithRank(NumberOrder(listing), KeyValue, v) == WithRank(seen, KeyValue, v) {
      SortByRankStable(seen, KeyValue, v);
    }
  }

  /**
   * Within a number, the files are merged in ascending path order, and they
   * are exactly the names of the listing that carry that number.
   */
  lemma GroupInNameOrder(listing: seq<string>, i: nat, p: string)
    requires i < |OrderedGroups(listing)|
    ensures SortedStrings(OrderedGroups(listing)[i])
    ensures p in OrderedGroups(listing)[i] <==>
            exists j :: 0 <= j < |listing| && NumberKey(listing[j]) == Some(NumberOrder(listing)[i]) && p == Join(Folder, listing[j])
  {
    var paths := PathsWithKey(Folder, listing, NumberKey, NumberOrder(listing)[i]);
    SortStringsSorted(paths);
    InPathsWithKey(Folder, listing, NumberKey, NumberOrder(listing)[i], p);
    assert p in OrderedGroups(listing)[i] <==> p in multiset(paths);
  }

  /** The dict the scan loop built, read back at the `i`-th number processed, gives that number's sorted group. */
  lemma GroupAt(listing: seq<string>, order: seq<string>, filesByNumber: map<string, seq<string>>, i: nat)
    requires order == KeysSeen(listing, NumberKey)
    requires forall k :: k in filesByNumber <==> k in order
    requires forall k :: k in filesByNumber ==> filesByNumber[k] == PathsWithKey(Folder, listing, NumberKey, k)
    requires i < |NumberOrder(listing)|
    ensures NumberOrder(listing)[i] in filesByNumber
    ensures SortStrings(filesByNumber[NumberOrder(listing)[i]]) == OrderedGroups(listing)[i]
  {
    assert NumberOrder(listing)[i] in multiset(order);
  }

  /**
   * One number's iteration: merge its files, then add a filler page if the
   * pages it added are odd. Says whether a filler was added.
   */
  method MergeNumber(out: Writer, pdfs: seq<string>, store: Store) returns (r: Result<bool, Failure>)
    modifies out
    ensures Load(pdfs, store).Err? ==> r == Err(Load(pdfs, store).error)
    ensures Load(pdfs, store).Ok? ==>
            r == Ok(TrimmedCount(Load(pdfs, store).value) % 2 == 1) &&
            out.pages == old(out.pages) + Block(Load(pdfs, store).value)
  {
    var start := |out.pages|;
    var found := AppendDocuments(out, pdfs, store);
    if found.Err? {
      return Err(found.error);
    }
    ContributionLength(Load(pdfs, store).value);
    var added := |out.pages| - start;
    var padded := added % 2 != 0;
    if padded {
      var size := if found.value.Some? then found.value.value else A4;
      out.AddPage(Filler(size));
    }
    return Ok(padded);
  }

  /**
   * The script: the merged pages and `total_extra_pages_added`, or the
   * failure that stops it before anything is written.
   */
  method Run(listing: seq<string>, store: Store) returns (r: Result<Merged, Failure>)
    ensures r == MergeGroups(OrderedGroups(listing), store)
  {
    var order, filesByNumber := Collect(Folder, listing, NumberKey);
    var numbers := SortByRank(order, KeyValue);
    ghost var groups := OrderedGroups(listing);
    var out := new Writer();
    var totalExtra := 0;
    ghost var loaded: seq<seq<Doc>> := [];
    for i := 0 to |numbers|
      invariant LoadGroups(groups[..i], store) == Ok(loaded)
      invariant out.pages == MergeDocs(loaded).pages && totalExtra == MergeDocs(loaded).fillers
    {
      GroupAt(listing, order, filesByNumber, i);
      var pdfs := SortStrings(filesByNumber[numbers[i]]);
      LoadGroupsStep(groups, store, i, loaded);
      var res := MergeNumber(out, pdfs, store);
      if res.Err? {
        assert MergeGroups(groups, store) == Err(res.error);
        return Err(res.error);
      }
      ghost var docs := Load(pdfs, store).value;
      ghost var before := MergeDocs(loaded);
      assert out.pages == before.pages + Block(docs);
      ContributionLength(docs);
      if res.value {
        totalExtra := totalExtra + 1;
      }
      assert totalExtra == before.fillers + |Contribution(docs)| % 2;
      MergeDocsStep(loaded, docs);
      loaded := loaded + [docs];
    }
    assert groups[..|numbers|] == groups;
    assert MergeGroups(groups, store) == Ok(MergeDocs(loaded));
    return Ok(Merged(out.pages, totalExtra));
  }

  /**
   * A completed run's output has Σ over numbers of Σ max(0, nᵢ − 1) rounded
   * up to even pages, an even total, and `total_extra_pages_added` is the
   * number of numbers whose pages before padding were odd.
   */
  lemma RunTotals(listing: seq<string>, store: Store)
    requires MergeGroups(OrderedGroups(listing), store).Ok?
    ensures var m, docs := MergeGroups(OrderedGroups(listing), store).value, LoadGroups(OrderedGroups(listing), store).value;
            |m.pages| == PaddedTotal(docs) && |m.pages| % 2 == 0 && m.fillers == OddGroups(docs)
  {
    MergeDocsShape(LoadGroups(OrderedGroups(listing), store).value);
  }
}
