# Lecture-note PDF merging, modelled in Dafny

The repository's course material comes as many small PDFs. There are
lecture parts such as `lecture-notes/001a.pdf` and `001b.pdf`, and
worked examples such as `examples/problems/ex001prb.pdf`. Three scripts
merge them into one printable PDF:

- **merge_by_number.py** groups `lecture-notes/<digits><letter>.pdf` by
  number. Numbers are taken in integer order, and each number's files in
  name order.
- **merge_lectures_and_examples.py** groups the three-digit lecture files
  the same way. It then appends each lecture's example file, if it has
  one.
- **merge_example_problems.py** merges every `ex<ddd>prb.pdf` file on its
  own, in number order. It stops when there are none.

All three share one page rule: each file loses its last page, and each
group (or file) is padded with a one-dot filler page to an even page
count.

The model is imperative where the scripts are:

- `PdfWriter` is the class `Pages.Writer`, whose `pages` field is a
  sequence.
- Every loop of the scripts is a method with its invariants.

Each method is proved against a specification function. The properties
the scripts promise are lemmas about those functions:

- file-name recognition;
- processing order;
- which files form a group;
- the even block size;
- the filler's size;
- the filler count.

The module layout:

- `Text` holds characters, the decimal value of a digit string, Python's
  string order, path joining and anchored, case-insensitive patterns.
- `Sorting` holds `sorted` on strings and the stable keyed sort.
- `Grouping` holds the dict-building scans, with insertion-ordered keys.
- `FileNames` holds the three file-name patterns.
- `Pages` holds pages, documents, the writer, the page rule and the
  merger of a sequence of groups.
- One module per script.

The file system and the PDF reader become parameters:

- A directory listing is a `seq<string>` in whatever order the system
  returns.
- The readable PDFs are a `Store`, a map from path to document. A path
  missing from it is a file `PdfReader` fails on, which ends the run
  with `Unreadable(path)`.

## Model

| member | source | states |
|---|---|---|
| Text.DecimalValue | merge_by_number.py:49 | `int()` of a digit string; the value of n digits is below 10^n |
| Text.DigitOrderIsNumericOrder | merge_lectures_and_examples.py:101 | for digit strings of equal length, string order is numeric order, in both directions |
| Text.DigitStringsWithEqualValue | merge_lectures_and_examples.py:101 | two digit strings of equal length and equal value are the same string |
| Text.StrLeTotal | merge_lectures_and_examples.py:62 | Python's string order compares any two names |
| Text.StrLeTransitive | merge_lectures_and_examples.py:62 | Python's string order is transitive |
| Text.StrLeAntisymmetric | merge_lectures_and_examples.py:62 | names that sort both ways round are equal |
| Text.StrLeCommonPrefix | merge_lectures_and_examples.py:66 | a shared prefix does not change the order of two strings, in both directions |
| Text.JoinInjective | merge_lectures_and_examples.py:66 | `os.path.join(folder, f)` gives distinct paths for distinct names |
| Text.JoinKeepsOrder | merge_lectures_and_examples.py:109 | sorting joined paths orders them as their file names, in both directions |
| Text.MatchIgnoresTrailingText | merge_by_number.py:41 | `re.match` is anchored only at the start: text after a match does not undo it |
| Text.MatchIgnoresCase | merge_by_number.py:36 | with IGNORECASE, names that differ only in letter case match alike |
| Sorting.SortStrings | merge_lectures_and_examples.py:62 | `sorted` on names returns a permutation of its input |
| Sorting.SortStringsSorted | merge_lectures_and_examples.py:62 | the result of `sorted` is in ascending string order |
| Sorting.SortStringsOfSorted | merge_lectures_and_examples.py:109 | sorting a list that is already sorted changes nothing |
| Sorting.DistinctPermutation | merge_lectures_and_examples.py:101 | sorting distinct keys keeps them distinct |
| Sorting.SortByRank | merge_by_number.py:49 | the keyed sort returns a permutation of its input |
| Sorting.SortByRankSorted | merge_by_number.py:49 | the keyed sort's result is ascending by key |
| Sorting.SortByRankStable | merge_by_number.py:49 | the sort is stable: elements with equal key keep their input order |
| Grouping.KeysSeenMembership | merge_by_number.py:39-44 | a number is a key of the dict iff some listed name matches with that number |
| Grouping.KeysSeenDistinct | merge_by_number.py:44 | `setdefault` adds each key once |
| Grouping.InPathsWithKey | merge_by_number.py:44 | a key's list holds exactly the joined paths of the names matching with that key |
| Grouping.PathInExactlyOneGroup | merge_by_number.py:44 | each matching name's path lands in its own number's list and in no other |
| Grouping.PathsWithKeySorted | merge_lectures_and_examples.py:62-66 | scanning a sorted listing gives each key a sorted list |
| Grouping.HasKeyPermutation | merge_lectures_and_examples.py:62 | sorting the listing first does not change which keys occur |
| Grouping.EmptyWithoutKey | merge_by_number.py:44 | a number that no name carries has no paths |
| Grouping.Collect | merge_by_number.py:39-44 | the scan loop: keys in first-seen order, each key once, and each key's list holds its paths |
| FileNames.LectureKey | merge_lectures_and_examples.py:61-65 | a lecture key is exactly three digits |
| FileNames.LectureKeyMeaning | merge_lectures_and_examples.py:61-65 | a name matches iff it starts with three digits, a letter and ".pdf" in any case; its key is the first three characters |
| FileNames.LectureKeyIgnoresCase | merge_lectures_and_examples.py:61 | names differing only in case get the same key |
| FileNames.LeadingDigits | merge_by_number.py:36 | `\d+` takes the longest run of leading digits |
| FileNames.NumberKey | merge_by_number.py:36 | a number key is a non-empty digit string |
| FileNames.NumberKeyMeaning | merge_by_number.py:36-43 | a name has key k iff it starts with the digits k, a letter and ".pdf" (any case) |
| FileNames.ExampleKey | merge_lectures_and_examples.py:76-80 | an example key is exactly three digits |
| FileNames.ExampleKeyMeaning | merge_lectures_and_examples.py:76-80 | a name matches iff it starts with "ex", three digits and "prb.pdf" in any case; its key is characters 2 to 4 |
| Pages.Writer.AddPage | merge_by_number.py:66 | `add_page` appends one page at the end |
| Pages.AllButLast | merge_by_number.py:65-66 | all of a document's pages except the last, in order; none for an empty document |
| Pages.Pad | merge_by_number.py:68-75 | pads to even length with exactly one filler of the given size, added iff the length is odd, and keeps the pages before it |
| Pages.LoadMeaning | merge_by_number.py:56 | loading succeeds iff every path is readable; it then gives each path's document, and otherwise names the first unreadable path |
| Pages.LoadPrefixFailure | merge_by_number.py:55-56 | once a path fails, nothing after it changes the outcome |
| Pages.ContributionLength | merge_by_number.py:69 | a group adds Σ max(0, n−1) pages before padding |
| Pages.ContributionSplit | merge_lectures_and_examples.py:109-132 | contributions of consecutive files concatenate |
| Pages.RefSizeMeaning | merge_by_number.py:57-63 | the page size is the first page's of the first non-empty document; there is none iff all documents are empty |
| Pages.BlockShape | merge_by_number.py:68-75 | a group's block is its contribution plus one filler iff that count is odd; the filler takes the reference size, or A4 |
| Pages.MergeDocsShape | merge_by_number.py:48-75 | the output's length is the sum of the even-rounded group counts, it is even, and the filler total counts the odd groups |
| Pages.MergeDocsAppendOnly | merge_by_number.py:49-75 | later groups only append: earlier output is a prefix |
| Pages.MergeDocsBlockAt | merge_by_number.py:49-75 | group i's block sits in the output right after the blocks of groups before it |
| Pages.LoadGroupsPrefixFailure | merge_by_number.py:49-56 | a failing group ends the run with that group's failure |
| Pages.AppendAllButLast | merge_by_number.py:65-66 | the page loop appends exactly the document's pages but the last |
| Pages.AppendDocuments | merge_by_number.py:55-66 | the loop over a group's files: the first unreadable path, or the group's contribution appended plus the reference size |
| Pages.PadSince | merge_lectures_and_examples.py:136-142 | adds one filler of the given size iff the pages added since the group began are odd, and says whether it did |
| MergeByNumber.NumberOrderMeaning | merge_by_number.py:49 | numbers are processed once each, exactly those that occur, in ascending integer order; equal values keep their first-seen order |
| MergeByNumber.GroupInNameOrder | merge_by_number.py:50 | each number's files are in name order, and are exactly the paths of names with that number |
| MergeByNumber.MergeNumber | merge_by_number.py:50-75 | one number: the group's block is appended, and the result says whether a filler was needed |
| MergeByNumber.Run | merge_by_number.py:39-75 | the script's output, or the failure that stops it, is the merger of the ordered groups |
| MergeByNumber.RunTotals | merge_by_number.py:72 | the output is even-length, and the "total extra pages" equal the number of odd groups |
| MergeLecturesAndExamples.CollectLectureFiles | merge_lectures_and_examples.py:55-67 | the keys are exactly the lecture numbers that occur; each list holds that number's paths, sorted |
| MergeLecturesAndExamples.ExampleForMeaning | merge_lectures_and_examples.py:77-81 | a number has an example iff some name carries it; the stored path is the last such name's |
| MergeLecturesAndExamples.CollectExampleFiles | merge_lectures_and_examples.py:70-82 | the scan loop stores, for each number that occurs, the last matching path |
| MergeLecturesAndExamples.LectureOrderMeaning | merge_lectures_and_examples.py:101 | lectures are processed once each, exactly those that occur, sorted; this is strictly ascending numeric order |
| MergeLecturesAndExamples.LecturesBeforeExample | merge_lectures_and_examples.py:109-132 | the example's pages follow the lectures'; it sets the filler size only when no lecture file had a page |
| MergeLecturesAndExamples.AppendExample | merge_lectures_and_examples.py:122-132 | the example's pages but the last are appended; it gives the page size only when the lecture files gave none and it has a page; an unreadable example fails the run |
| MergeLecturesAndExamples.MergeLectureBlock | merge_lectures_and_examples.py:104-142 | one lecture: the first unreadable path, or the block of its lecture files then its example appended |
| MergeLecturesAndExamples.Run | merge_lectures_and_examples.py:91-142 | the script's output, or its failure, is the merger of the per-lecture blocks in lecture order |
| MergeExampleProblems.SelectionMeaning | merge_example_problems.py:35-39 | the kept names are exactly the matching names of the listing, each as often as listed |
| MergeExampleProblems.CollectFiles | merge_example_problems.py:36-39 | the scan loop keeps the matching names in listing order |
| MergeExampleProblems.ExampleNumberIsCapturedNumber | merge_example_problems.py:35 | every selected name's sort key is its three captured digits, below 1000, whatever the case of its letters |
| MergeExampleProblems.SortKeyAsWrittenFailsOnUpperCase | merge_example_problems.py:45 | "EX001prb.pdf" passes the filter, but the sort key's case-sensitive search finds nothing |
| MergeExampleProblems.SortKeyAsWrittenAgreesOnLowerCase | merge_example_problems.py:45 | on names starting with a lower-case "ex", the sort key as written equals the corrected key |
| MergeExampleProblems.FileBlock | merge_example_problems.py:53-67 | a file with at most one page adds nothing; otherwise all its pages but the last, then one filler of its first page's size iff that count is odd |
| MergeExampleProblems.FileBlockIsSingletonBlock | merge_example_problems.py:49-67 | one file's block is the group block of that file alone |
| MergeExampleProblems.MergeFilesAsGroups | merge_example_problems.py:49-67 | merging the files one by one is the group merger over one-file groups |
| MergeExampleProblems.AbortsIffNothingSelected | merge_example_problems.py:41-42 | the run stops for want of input iff no listed name matches |
| MergeExampleProblems.FilesInNumberOrder | merge_example_problems.py:45 | files are merged in ascending order of number; files with the same number keep listing order |
| MergeExampleProblems.MergeFile | merge_example_problems.py:50-67 | one file: its path's failure, or its block appended |
| MergeExampleProblems.Run | merge_example_problems.py:36-67 | the script's output, its abort or its failure, in that order of checks |

## Left out

- PDF contents and encoding: a page is an opaque value with an id and a
  media-box size. Reading and writing PDF files and rendering the dot page
  (`create_dot_page`) are not modelled.
- I/O: `os.listdir` and the readable files are parameters. The order
  `os.listdir` returns is arbitrary. Writing the output file and every
  `print` are left out.
- The `SystemExit` message of merge_example_problems.py is reduced to
  `NoMatchingFiles`.
- Every `PdfReader` exception is reduced to `Unreadable(path)`.
- Page sizes are `real` values copied from the page. Python's float
  conversion of the media box is not modelled.
- Text.IsDigit, Text.IsLetter and Text.Lower cover ASCII only, because the
  file names in question are ASCII. Python's `\d` also accepts other
  Unicode decimal digits. Its IGNORECASE also folds a few non-ASCII
  characters onto ASCII letters (the Kelvin sign, the long s, the dotted
  capital I). `int()` on a digit string with such characters is not
  modelled.
- Sorting.SortStrings and Sorting.SortByRank are insertion sorts. They
  are not Python's Timsort, but the result is the same: the unique sorted
  permutation, and with keys the unique stable one.
- Text.StrLe compares Dafny characters. Python compares code points, which
  agree with them for the characters in question.
- MergeExampleProblems.Run uses the corrected sort key (see Findings).
  With the script's own key, a selected name without a lower-case "ex"
  makes the sort raise `AttributeError` before any output.
  SortKeyAsWritten models that key, and SortKeyAsWrittenFailsOnUpperCase
  shows the input.

## Findings

| source | as written | input that shows it | evidently intended | confidence | as-written member | corrected member |
|---|---|---|---|---|---|---|
| merge_example_problems.py:45 | files are selected with `re.IGNORECASE` (line 35), but the sort key uses a case-sensitive `re.search(r"ex(\d{3})", x)` and calls `.group(1)` on its result | a listing containing "EX001prb.pdf": it is selected, the search returns None, and `.group(1)` raises `AttributeError` | sort every selected file by the three digits the filter captured, case ignored | high; not executed | MergeExampleProblems.SortKeyAsWrittenFailsOnUpperCase | MergeExampleProblems.ExampleNumberIsCapturedNumber |
