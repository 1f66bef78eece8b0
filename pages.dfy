/**
 * The group merger shared by the three scripts. A PDF document is the
 * sequence of its pages; reading a path is a lookup in a `Store`, and a path
 * the store lacks is a file PdfReader cannot open, which aborts the run.
 * The `PdfWriter` is an append-only page buffer. Each group of documents
 * contributes every document's pages but the last, and is then padded with
 * one filler page when that contribution is odd.
 */
module Pages {
  import opened Wrappers

  /** A page's media box, width and height in points (floating point in the scripts; kept opaque here). */
  datatype Size = Size(width: real, height: real)

  /** reportlab's A4, the filler size when no page of the group gave one. */
  const A4: Size := Size(595.2755905511812, 841.8897637795277)

  /** A page read from a source document, or the generated page with one dot on it. */
  datatype Page = SourcePage(id: nat, size: Size) | Filler(size: Size)

  type Doc = seq<Page>

  /** What PdfReader finds at each readable path. */
  type Store = map<string, Doc>

  /** The ways a run ends without writing its output. */
  datatype Failure =
    | Unreadable(path: string)  // PdfReader raised on this path
    | NoMatchingFiles           // the example-only run found nothing to merge

  /** `PdfWriter`: the pages added so far. */
  class Writer {
    var pages: seq<Page>

    constructor ()
      ensures pages == []
    {
      pages := [];
    }

    /** `out.add_page(p)` */
    method AddPage(p: Page)
      modifies this
      ensures pages == old(pages) + [p]
    {
      pages := pages + [p];
    }
  }

  /** A document's pages without its last one: `pages[i] for i in range(max(0, len(pages) - 1))`. */
  function AllButLast(doc: Doc): (r: Doc)
    ensures |r| == if |doc| == 0 then 0 else |doc| - 1
    ensures forall i :: 0 <= i < |r| ==> r[i] == doc[i]
  {
    if |doc| == 0 then [] else doc[..|doc| - 1]
  }

  /** `n` rounded up to an even number. */
  function EvenCeil(n: nat): nat
  {
    n + n % 2
  }

  /** A block padded to even length: one filler page after it when it is odd, nothing otherwise. */
  function Pad(block: seq<Page>, size: Size): (r: seq<Page>)
    ensures |r| == EvenCeil(|block|) && |r| % 2 == 0
    ensures r[..|block|] == block
    ensures |r| > |block| <==> |block| % 2 == 1
    ensures |r| > |block| ==> r[|block|] == Filler(size)
  {
    if |block| % 2 != 0 then block + [Filler(size)] else block
  }

  /** Opening the paths in order: the documents, or the first path that cannot be read. */
  function Load(paths: seq<string>, store: Store): Result<seq<Doc>, Failure>
    decreases |paths|
  {
    if paths == [] then Ok([])
    else
      match Load(paths[..|paths| - 1], store)
      case Err(e) => Err(e)
      case Ok(docs) =>
        var p := paths[|paths| - 1];
        if p in store then Ok(docs + [store[p]]) else Err(Unreadable(p))
  }

  /** Loading succeeds exactly when every path is readable, and then gives each path's document. */
  lemma {:induction false} LoadMeaning(paths: seq<string>, store: Store)
    ensures Load(paths, store).Ok? <==> forall i :: 0 <= i < |paths| ==> paths[i] in store
    ensures Load(paths, store).Ok? ==>
            |Load(paths, store).value| == |paths| &&
            forall i :: 0 <= i < |paths| ==> Load(paths, store).value[i] == store[paths[i]]
    ensures Load(paths, store).Err? ==>
            exists i :: 0 <= i < |paths| && paths[i] !in store && Load(paths, store).error == Unreadable(paths[i]) &&
                        forall j :: 0 <= j < i ==> paths[j] in store
    decreases |paths|
  {
    if paths != [] {
      var init := paths[..|paths| - 1];
      LoadMeaning(init, store);
      assert forall i :: 0 <= i < |init| ==> init[i] == paths[i];
      if Load(init, store).Err? {
        var i :| 0 <= i < |init| && init[i] !in store && Load(init, store).error == Unreadable(init[i]) &&
                 forall j :: 0 <= j < i ==> init[j] in store;
        assert paths[i] !in store;
      }
    }
  }

  /** Once a prefix of the paths fails, loading them all fails the same way. */
  lemma {:induction false} LoadPrefixFailure(paths: seq<string>, store: Store, n: nat)
    requires n <= |paths| && Load(paths[..n], store).Err?
    ensures Load(paths, store) == Load(paths[..n], store)
    decreases |paths|
  {
    if n < |paths| {
      assert paths[..|paths| - 1][..n] == paths[..n];
      LoadPrefixFailure(paths[..|paths| - 1], store, n);
    } else {
      assert paths[..n] == paths;
    }
  }

  /** The pages a group of documents adds before padding, in document order. */
  function Contribution(docs: seq<Doc>): seq<Page>
    decreases |docs|
  {
    if docs == [] then [] else Contribution(docs[..|docs| - 1]) + AllButLast(docs[|docs| - 1])
  }

  /** Σ max(0, nᵢ − 1) over the documents' page counts nᵢ. */
  function TrimmedCount(docs: seq<Doc>): nat
    decreases |docs|
  {
    if docs == [] then 0 else (if |docs[0]| == 0 then 0 else |docs[0]| - 1) + TrimmedCount(docs[1..])
  }

  lemma {:induction false} TrimmedCountAppend(docs: seq<Doc>, d: Doc)
    ensures TrimmedCount(docs + [d]) == TrimmedCount(docs) + (if |d| == 0 then 0 else |d| - 1)
    decreases |docs|
  {
    if docs != [] {
      assert (docs + [d])[1..] == docs[1..] + [d];
      TrimmedCountAppend(docs[1..], d);
    }
  }

  /** A group contributes Σ max(0, nᵢ − 1) pages. */
  lemma {:induction false} ContributionLength(docs: seq<Doc>)
    ensures |Contribution(docs)| == TrimmedCount(docs)
    decreases |docs|
  {
    if docs != [] {
      var init := docs[..|docs| - 1];
      ContributionLength(init);
      assert docs == init + [docs[|docs| - 1]];
      TrimmedCountAppend(init, docs[|docs| - 1]);
    }
  }

  /** The pages of earlier documents come before the pages of later ones. */
  lemma {:induction false} ContributionSplit(a: seq<Doc>, b: seq<Doc>)
    ensures Contribution(a + b) == Contribution(a) + Contribution(b)
    decreases |b|
  {
    if b == [] {
      assert a + b == a;
    } else {
      var init, last := b[..|b| - 1], b[|b| - 1];
      var ab := a + b;
      assert ab[..|ab| - 1] == a + init && ab[|ab| - 1] == last;
      assert Contribution(ab) == Contribution(a + init) + AllButLast(last);
      assert Contribution(b) == Contribution(init) + AllButLast(last);
      ContributionSplit(a, init);
    }
  }

  /** The size of the first page of the first document that has a page, tracked as `page_width`/`page_height`. */
  function RefSize(docs: seq<Doc>): Option<Size>
    decreases |docs|
  {
    if docs == [] then None
    else
      var earlier := RefSize(docs[..|docs| - 1]);
      var d := docs[|docs| - 1];
      if earlier.Some? then earlier else if |d| > 0 then Some(d[0].size) else None
  }

  /** The reference size is absent exactly when no document has a page, and otherwise is the first page's of the first document with one. */
  lemma {:induction false} RefSizeMeaning(docs: seq<Doc>)
    ensures RefSize(docs).None? <==> forall i :: 0 <= i < |docs| ==> |docs[i]| == 0
    ensures RefSize(docs).Some? ==>
            exists i :: 0 <= i < |docs| && |docs[i]| > 0 && RefSize(docs).value == docs[i][0].size &&
                        forall j :: 0 <= j < i ==> |docs[j]| == 0
    decreases |docs|
  {
    if docs != [] {
      var init := docs[..|docs| - 1];
      RefSizeMeaning(init);
      assert forall i :: 0 <= i < |init| ==> init[i] == docs[i];
      if RefSize(init).Some? {
        var i :| 0 <= i < |init| && |init[i]| > 0 && RefSize(init).value == init[i][0].size &&
                 forall j :: 0 <= j < i ==> |init[j]| == 0;
        assert |docs[i]| > 0;
      }
    }
  }

  /** The filler page's size: the reference size, or A4 when there is none. */
  function FillerSize(docs: seq<Doc>): Size
  {
    match RefSize(docs)
    case Some(s) => s
    case None => A4
  }

  /** What one group leaves in the output: its contribution, padded to even length. */
  function Block(docs: seq<Doc>): seq<Page>
  {
    Pad(Contribution(docs), FillerSize(docs))
  }

  /**
   * A group's block holds Σ max(0, nᵢ − 1) pages rounded up to even: the
   * contribution first, then exactly one filler, sized from the group's
   * first page (A4 without one), precisely when that count is odd.
   */
  lemma BlockShape(docs: seq<Doc>)
    ensures |Block(docs)| == EvenCeil(TrimmedCount(docs)) && |Block(docs)| % 2 == 0
    ensures Block(docs)[..TrimmedCount(docs)] == Contribution(docs)
    ensures |Block(docs)| == TrimmedCount(docs) + 1 <==> TrimmedCount(docs) % 2 == 1
    ensures TrimmedCount(docs) % 2 == 1 ==> Block(docs)[TrimmedCount(docs)] == Filler(FillerSize(docs))
  {
    ContributionLength(docs);
  }

  /** The output after some groups, and how many filler pages they needed (`total_extra_pages_added`). */
  datatype Merged = Merged(pages: seq<Page>, fillers: nat)

  function MergeDocs(groups: seq<seq<Doc>>): Merged
    decreases |groups|
  {
    if groups == [] then Merged([], 0)
    else
      var earlier := MergeDocs(groups[..|groups| - 1]);
      var g := groups[|groups| - 1];
      Merged(earlier.pages + Block(g), earlier.fillers + |Contribution(g)| % 2)
  }

  /** Σ over groups of the group's trimmed page count rounded up to even. */
  function PaddedTotal(groups: seq<seq<Doc>>): nat
    decreases |groups|
  {
    if groups == [] then 0 else PaddedTotal(groups[..|groups| - 1]) + EvenCeil(TrimmedCount(groups[|groups| - 1]))
  }

  /** The number of groups whose trimmed page count is odd. */
  function OddGroups(groups: seq<seq<Doc>>): nat
    decreases |groups|
  {
    if groups == [] then 0 else OddGroups(groups[..|groups| - 1]) + TrimmedCount(groups[|groups| - 1]) % 2
  }

  /**
   * The output's length is the sum of the groups' trimmed counts rounded up
   * to even, hence even; one filler was added per group with an odd count.
   */
  lemma {:induction false} MergeDocsShape(groups: seq<seq<Doc>>)
    ensures |MergeDocs(groups).pages| == PaddedTotal(groups)
    ensures |MergeDocs(groups).pages| % 2 == 0
    ensures MergeDocs(groups).fillers == OddGroups(groups)
    decreases |groups|
  {
    if groups != [] {
      MergeDocsShape(groups[..|groups| - 1]);
      BlockShape(groups[|groups| - 1]);
      ContributionLength(groups[|groups| - 1]);
    }
  }

  /** Append-only: the output after the first `n` groups is a prefix of the output after all of them. */
  lemma {:induction false} MergeDocsAppendOnly(groups: seq<seq<Doc>>, n: nat)
    requires n <= |groups|
    ensures MergeDocs(groups[..n]).pages <= MergeDocs(groups).pages
    decreases |groups|
  {
    if n < |groups| {
      assert groups[..|groups| - 1][..n] == groups[..n];
      MergeDocsAppendOnly(groups[..|groups| - 1], n);
    } else {
      assert groups[..n] == groups;
    }
  }

  /** Group `i`'s block sits in the output right after the blocks of the groups before it. */
  lemma MergeDocsBlockAt(groups: seq<seq<Doc>>, i: nat)
    requires i < |groups|
    ensures PaddedTotal(groups[..i]) + |Block(groups[i])| <= |MergeDocs(groups).pages|
    ensures MergeDocs(groups).pages[PaddedTotal(groups[..i])..PaddedTotal(groups[..i]) + |Block(groups[i])|] == Block(groups[i])
  {
    var upto := groups[..i + 1];
    assert upto[..i] == groups[..i];
    MergeDocsAppendOnly(groups, i + 1);
    MergeDocsShape(groups[..i]);
    var whole := MergeDocs(groups).pages;
    var part := MergeDocs(upto).pages;
    assert part == MergeDocs(groups[..i]).pages + Block(groups[i]);
    assert whole[..|part|] == part;
  }

  /** Loading every group's paths, group by group: all documents, or the first unreadable path. */
  function LoadGroups(groups: seq<seq<string>>, store: Store): Result<seq<seq<Doc>>, Failure>
    decreases |groups|
  {
    if groups == [] then Ok([])
    else
      match LoadGroups(groups[..|groups| - 1], store)
      case Err(e) => Err(e)
      case Ok(earlier) =>
        match Load(groups[|groups| - 1], store)
        case Err(e) => Err(e)
        case Ok(docs) => Ok(earlier + [docs])
  }

  lemma {:induction false} LoadGroupsPrefixFailure(groups: seq<seq<string>>, store: Store, n: nat)
    requires n <= |groups| && LoadGroups(groups[..n], store).Err?
    ensures LoadGroups(groups, store) == LoadGroups(groups[..n], store)
    decreases |groups|
  {
    if n < |groups| {
      assert groups[..|groups| - 1][..n] == groups[..n];
      LoadGroupsPrefixFailure(groups[..|groups| - 1], store, n);
    } else {
      assert groups[..n] == groups;
    }
  }

  /** One more group: loading it either fails, failing the whole load, or extends the loaded documents. */
  lemma LoadGroupsStep(groups: seq<seq<string>>, store: Store, i: nat, loaded: seq<seq<Doc>>)
    requires i < |groups| && LoadGroups(groups[..i], store) == Ok(loaded)
    ensures Load(groups[i], store).Err? ==> LoadGroups(groups, store) == Err(Load(groups[i], store).error)
    ensures Load(groups[i], store).Ok? ==> LoadGroups(groups[..i + 1], store) == Ok(loaded + [Load(groups[i], store).value])
  {
    var upto := groups[..i + 1];
    assert upto[..i] == groups[..i] && upto[i] == groups[i];
    if Load(groups[i], store).Err? {
      LoadGroupsPrefixFailure(groups, store, i + 1);
    }
  }

  lemma MergeDocsStep(loaded: seq<seq<Doc>>, docs: seq<Doc>)
    ensures MergeDocs(loaded + [docs]) ==
            Merged(MergeDocs(loaded).pages + Block(docs), MergeDocs(loaded).fillers + |Contribution(docs)| % 2)
  {
    assert (loaded + [docs])[..|loaded|] == loaded;
  }

  /** The whole merge of some ordered groups of paths: the output and its filler count, or the failure that aborts it. */
  function MergeGroups(groups: seq<seq<string>>, store: Store): Result<Merged, Failure>
  {
    match LoadGroups(groups, store)
    case Err(e) => Err(e)
    case Ok(docs) => Ok(MergeDocs(docs))
  }

  /** The pages a finished merge writes, or the failure that prevented writing. */
  function OutputPages(m: Result<Merged, Failure>): Result<seq<Page>, Failure>
  {
    match m
    case Ok(merged) => Ok(merged.pages)
    case Err(e) => Err(e)
  }

  /** Appends all pages of `doc` but its last, in order. */
  method AppendAllButLast(out: Writer, doc: Doc)
    modifies out
    ensures out.pages == old(out.pages) + AllButLast(doc)
  {
    var n := if |doc| == 0 then 0 else |doc| - 1;
    for i := 0 to n
      invariant out.pages == old(out.pages) + doc[..i]
    {
      assert doc[..i + 1] == doc[..i] + [doc[i]];
      out.AddPage(doc[i]);
    }
  }

  /**
   * The inner loop over a group's paths: open each document, skip it when it
   * has no pages, take the page size from the first page seen, and append
   * all its pages but the last. Gives the page size found, or the failure.
   */
  method AppendDocuments(out: Writer, paths: seq<string>, store: Store) returns (r: Result<Option<Size>, Failure>)
    modifies out
    ensures Load(paths, store).Err? ==> r == Err(Load(paths, store).error)
    ensures Load(paths, store).Ok? ==>
            r == Ok(RefSize(Load(paths, store).value)) &&
            out.pages == old(out.pages) + Contribution(Load(paths, store).value)
  {
    var size: Option<Size> := None;
    ghost var docs: seq<Doc> := [];
    for j := 0 to |paths|
      invariant Load(paths[..j], store) == Ok(docs)
      invariant size == RefSize(docs)
      invariant out.pages == old(out.pages) + Contribution(docs)
    {
      assert paths[..j + 1][..j] == paths[..j];
      var path := paths[j];
      if path !in store {
        LoadPrefixFailure(paths, store, j + 1);
        return Err(Unreadable(path));
      }
      var doc := store[path];
      assert (docs + [doc])[..|docs|] == docs;
      if |doc| > 0 {
        if size.None? {
          size := Some(doc[0].size);
        }
        AppendAllButLast(out, doc);
      }
      docs := docs + [doc];
    }
    assert paths[..|paths|] == paths;
    return Ok(size);
  }

  /**
   * The padding step after a group: one filler of `size` when the pages
   * added since `start` are odd in number. Says whether it added one.
   */
  method PadSince(out: Writer, start: nat, size: Size) returns (padded: bool)
    requires start <= |out.pages|
    modifies out
    ensures padded <==> (|old(out.pages)| - start) % 2 == 1
    ensures out.pages == old(out.pages)[..start] + Pad(old(out.pages)[start..], size)
  {
    ghost var before := out.pages;
    assert before == before[..start] + before[start..];
    var added := |out.pages| - start;
    padded := added % 2 != 0;
    if padded {
      out.AddPage(Filler(size));
    }
  }
}
