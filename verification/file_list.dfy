/** The file browser's list controller: loading a folder's entries, the
    display order (directories first, each group by lower-cased name),
    the search filter, and what a row selection does. */
module FileList {

  import opened Wrappers
  import opened Strings
  import opened Seqs
  import opened Files

  // ---------------------------------------------------------------------------
  // Ordering by name

  /** The sort key: the lower-cased file name. */
  function NameKey(f: FileObject): string {
    Lower(f.fileName)
  }

  /** No entry is followed by one whose key is strictly smaller. */
  predicate SortedByName(s: seq<FileObject>) {
    forall i, j :: 0 <= i < j < |s| ==> LessOrEqual(NameKey(s[i]), NameKey(s[j]))
  }

  /** `x` placed into sorted `s` before the first entry not below it. */
  function InsertByName(x: FileObject, s: seq<FileObject>): (r: seq<FileObject>)
    requires SortedByName(s)
    ensures SortedByName(r)
    ensures multiset(r) == multiset(s) + multiset{x}
    decreases |s|
  {
    if |s| == 0 then [x]
    else if LessOrEqual(NameKey(x), NameKey(s[0])) then
      assert forall j :: 0 <= j < |s| ==> LessOrEqual(NameKey(x), NameKey(s[j])) by {
        forall j | 0 <= j < |s| ensures LessOrEqual(NameKey(x), NameKey(s[j])) {
          if j > 0 {
            LessOrEqualTransitive(NameKey(x), NameKey(s[0]), NameKey(s[j]));
          }
        }
      }
      [x] + s
    else
      var t := InsertByName(x, s[1..]);
      assert s == [s[0]] + s[1..];
      assert forall j :: 0 <= j < |t| ==> LessOrEqual(NameKey(s[0]), NameKey(t[j])) by {
        forall j | 0 <= j < |t|
          ensures LessOrEqual(NameKey(s[0]), NameKey(t[j]))
        {
          assert t[j] in multiset(t);
          if t[j] == x {
            LessTotal(NameKey(x), NameKey(s[0]));
            LessAsymmetric(NameKey(s[0]), NameKey(x));
          } else {
            assert t[j] in s[1..];
          }
        }
      }
      [s[0]] + t
  }

  /** `sort { $0.fileName.lowercased() < $1.fileName.lowercased() }`: an
      ordering of the same entries with keys non-decreasing. */
  function SortByName(s: seq<FileObject>): (r: seq<FileObject>)
    ensures SortedByName(r)
    ensures multiset(r) == multiset(s)
    decreases |s|
  {
    if |s| == 0 then []
    else
      assert s == [s[0]] + s[1..];
      InsertByName(s[0], SortByName(s[1..]))
  }

  // ---------------------------------------------------------------------------
  // Directories first

  function Directories(s: seq<FileObject>): seq<FileObject> {
    Keep(s, IsDirectoryEntry)
  }

  function NonDirectories(s: seq<FileObject>): seq<FileObject> {
    Keep(s, f => !IsDirectoryEntry(f))
  }

  /** The display order of a listing: no directory follows a non-directory,
      and among entries of the same group keys never decrease. */
  predicate DisplayOrdered(s: seq<FileObject>) {
    forall i, j :: 0 <= i < j < |s| ==>
      && (IsDirectoryEntry(s[j]) ==> IsDirectoryEntry(s[i]))
      && (IsDirectoryEntry(s[i]) == IsDirectoryEntry(s[j]) ==>
            LessOrEqual(NameKey(s[i]), NameKey(s[j])))
  }

  /** The reversed scan that moves directory entries out of the list: each
      directory found is appended to `directoryList` (so that list ends up in
      reverse enumeration order) and removed from `remaining`, whose other
      entries keep their order. */
  method GatherDirectories(fileList: seq<FileObject>)
    returns (directoryList: seq<FileObject>, remaining: seq<FileObject>)
    ensures directoryList == Reverse(Directories(fileList))
    ensures remaining == NonDirectories(fileList)
  {
    directoryList := [];
    remaining := fileList;
    var i := |fileList|;
    while i > 0
      invariant 0 <= i <= |fileList|
      invariant directoryList == Reverse(Directories(fileList[i..]))
      invariant remaining == fileList[..i] + NonDirectories(fileList[i..])
      decreases i
    {
      i := i - 1;
      var file := fileList[i];
      ghost var later := fileList[i + 1..];
      GroupsStep(fileList[i..]);
      assert fileList[i..][1..] == later;
      assert fileList[..i + 1] == fileList[..i] + [file];
      assert remaining == fileList[..i] + ([file] + NonDirectories(later));
      if file.ext == "directory" {
        ReverseCons(file, Directories(later));
        directoryList := directoryList + [file];
        assert remaining[..i] == fileList[..i];
        assert remaining[i + 1..] == NonDirectories(later);
        remaining := remaining[..i] + remaining[i + 1..];
      }
    }
    assert fileList[0..] == fileList;
  }

  /** Peeling the first entry off both groups. */
  lemma GroupsStep(s: seq<FileObject>)
    requires |s| > 0
    ensures Directories(s) == (if IsDirectoryEntry(s[0]) then [s[0]] else []) + Directories(s[1..])
    ensures NonDirectories(s) == (if IsDirectoryEntry(s[0]) then [] else [s[0]]) + NonDirectories(s[1..])
  {
  }

  /** A directory block followed by a block of other entries, each sorted,
      is in display order. */
  lemma BlocksDisplayOrdered(dirs: seq<FileObject>, files: seq<FileObject>)
    requires forall i :: 0 <= i < |dirs| ==> IsDirectoryEntry(dirs[i])
    requires forall i :: 0 <= i < |files| ==> !IsDirectoryEntry(files[i])
    requires SortedByName(dirs) && SortedByName(files)
    ensures DisplayOrdered(dirs + files)
  {
    var r := dirs + files;
    forall i, j | 0 <= i < j < |r|
      ensures IsDirectoryEntry(r[j]) ==> IsDirectoryEntry(r[i])
      ensures IsDirectoryEntry(r[i]) == IsDirectoryEntry(r[j]) ==> LessOrEqual(NameKey(r[i]), NameKey(r[j]))
    {
      if j < |dirs| {
        assert r[i] == dirs[i] && r[j] == dirs[j];
      } else if i >= |dirs| {
        assert r[i] == files[i - |dirs|] && r[j] == files[j - |dirs|];
      } else {
        assert r[i] == dirs[i] && r[j] == files[j - |dirs|];
      }
    }
  }

  /** The order produced for the root listing: the directory block, sorted,
      then the remaining entries, sorted. */
  function SortLoaded(fileList: seq<FileObject>): (r: seq<FileObject>)
    ensures multiset(r) == multiset(fileList)
    ensures DisplayOrdered(r)
    ensures |Directories(fileList)| <= |r|
    ensures forall i :: 0 <= i < |r| ==> (IsDirectoryEntry(r[i]) <==> i < |Directories(fileList)|)
  {
    var dirs := SortByName(Reverse(Directories(fileList)));
    var files := SortByName(NonDirectories(fileList));
    ReversePermutes(Directories(fileList));
    SortedBlocks(fileList, dirs, files);
    dirs + files
  }

  lemma SortedBlocks(fileList: seq<FileObject>, dirs: seq<FileObject>, files: seq<FileObject>)
    requires multiset(dirs) == multiset(Directories(fileList))
    requires multiset(files) == multiset(NonDirectories(fileList))
    requires SortedByName(dirs) && SortedByName(files)
    ensures multiset(dirs + files) == multiset(fileList)
    ensures DisplayOrdered(dirs + files)
    ensures |dirs| == |Directories(fileList)|
    ensures forall i :: 0 <= i < |dirs| ==> IsDirectoryEntry(dirs[i])
    ensures forall i :: 0 <= i < |files| ==> !IsDirectoryEntry(files[i])
  {
    var d := Directories(fileList);
    var n := NonDirectories(fileList);
    KeepPartition(fileList, IsDirectoryEntry, f => !IsDirectoryEntry(f));
    KeepSound(fileList, IsDirectoryEntry);
    KeepSound(fileList, f => !IsDirectoryEntry(f));
    PermutationPreservesAll(dirs, d, IsDirectoryEntry);
    PermutationPreservesAll(files, n, f => !IsDirectoryEntry(f));
    BlocksDisplayOrdered(dirs, files);
    assert |multiset(dirs)| == |multiset(d)|;
  }

  // ---------------------------------------------------------------------------
  // Loading a folder

  /** `appendingPathComponent`: joins a folder path and a child name with a
      single separator. */
  function AppendPathComponent(path: string, component: string): string {
    if |path| == 0 then component
    else if path[|path| - 1] == '/' then path + component
    else path + "/" + component
  }

  /** The entries built for the child names of `path`, in enumeration order;
      `makeEntry` stands for `FileObject(url:)`. */
  function Listing(path: string, names: seq<string>, makeEntry: string -> FileObject): seq<FileObject> {
    seq(|names|, i requires 0 <= i < |names| => makeEntry(AppendPathComponent(path, names[i])))
  }

  /** The search bar: whether the search controller is active, and its text
      (absent before the bar has any). */
  datatype SearchBar = SearchBar(active: bool, text: Option<string>)

  /** The controller's state that the table reads. */
  datatype ListController = ListController(
    fileList: seq<FileObject>,
    filteredFileList: seq<FileObject>,
    search: SearchBar,
    title: Option<string>)

  /** A controller as instantiated from the storyboard, before loading. */
  const FreshController := ListController([], [], SearchBar(false, None), None)

  /** Appending one entry per child of `path`. `contents` is the directory
      enumeration, `None` when it threw; the source force-unwraps it. */
  method ListFilesFromUrl(
    c: ListController, path: string, contents: Option<seq<string>>,
    makeEntry: string -> FileObject)
    returns (r: ListController)
    requires contents.Some?
    ensures |r.fileList| == |c.fileList| + |contents.value|
    ensures r.fileList[..|c.fileList|] == c.fileList
    ensures forall i :: 0 <= i < |contents.value| ==>
      r.fileList[|c.fileList| + i] == makeEntry(AppendPathComponent(path, contents.value[i]))
    ensures r == c.(fileList := c.fileList + Listing(path, contents.value, makeEntry))
  {
    var names := contents.value;
    var list := c.fileList;
    var k := 0;
    while k < |names|
      invariant 0 <= k <= |names|
      invariant list == c.fileList + Listing(path, names[..k], makeEntry)
    {
      var file := makeEntry(AppendPathComponent(path, names[k]));
      assert Listing(path, names[..k + 1], makeEntry) == Listing(path, names[..k], makeEntry) + [file];
      list := list + [file];
      k := k + 1;
    }
    assert names[..k] == names;
    r := c.(fileList := list);
  }

  /** `viewDidLoad`: only the navigation stack's root lists the documents
      folder and sorts; a pushed controller keeps the entries it was given,
      in enumeration order. */
  function ViewDidLoad(
    c: ListController, isRoot: bool, documentsDirectory: string,
    contents: Option<seq<string>>, makeEntry: string -> FileObject)
    : (r: ListController)
    requires isRoot ==> contents.Some?
    ensures !isRoot ==> r == c
    ensures isRoot ==>
      multiset(r.fileList) == multiset(c.fileList + Listing(documentsDirectory, contents.value, makeEntry))
    ensures isRoot ==> DisplayOrdered(r.fileList)
    ensures r.filteredFileList == c.filteredFileList && r.search == c.search && r.title == c.title
  {
    if isRoot then
      c.(fileList := SortLoaded(c.fileList + Listing(documentsDirectory, contents.value, makeEntry)))
    else
      c
  }

  // ---------------------------------------------------------------------------
  // Search filter

  predicate MatchesQuery(f: FileObject, query: string) {
    ContainsIgnoringCase(f.fileName, query)
  }

  /** `filterContentForSearchText`: the entries whose lower-cased name
      contains the lower-cased query, in list order, and nothing but the
      filtered list changes. */
  function FilterContent(c: ListController, searchText: string): (r: ListController)
    ensures r.fileList == c.fileList && r.search == c.search && r.title == c.title
    ensures IsSubsequence(r.filteredFileList, c.fileList)
    ensures forall i :: 0 <= i < |r.filteredFileList| ==> MatchesQuery(r.filteredFileList[i], searchText)
    ensures forall f ::
      multiset(r.filteredFileList)[f] == if MatchesQuery(f, searchText) then multiset(c.fileList)[f] else 0
  {
    KeepSound(c.fileList, f => MatchesQuery(f, searchText));
    KeepCounts(c.fileList, f => MatchesQuery(f, searchText));
    KeepIsSubsequence(c.fileList, f => MatchesQuery(f, searchText));
    c.(filteredFileList := Keep(c.fileList, f => MatchesQuery(f, searchText)))
  }

  /** The search ignores the case of the query: filtering by the
      lower-cased query gives the same list as filtering by the query. */
  lemma FilterIgnoresQueryCase(c: ListController, searchText: string)
    ensures FilterContent(c, Lower(searchText)) == FilterContent(c, searchText)
  {
    LowerNormalises(searchText);
    KeepCongruent(c.fileList, f => MatchesQuery(f, Lower(searchText)), f => MatchesQuery(f, searchText));
  }

  /** The filtered list was computed from the current list and the bar's text. */
  predicate FilterUpToDate(c: ListController) {
    c.search.text.Some? && c.filteredFileList == Keep(c.fileList, f => MatchesQuery(f, c.search.text.value))
  }

  /** `updateSearchResults`: refilters with the bar's text, which the source
      force-unwraps. */
  function UpdateSearchResults(c: ListController): (r: ListController)
    requires c.search.text.Some?
    ensures FilterUpToDate(r)
    ensures r == c.(filteredFileList := r.filteredFileList)
  {
    FilterContent(c, c.search.text.value)
  }

  predicate SearchBarIsEmpty(c: ListController) {
    match c.search.text
    case None => true
    case Some(t) => |t| == 0
  }

  predicate IsFiltering(c: ListController) {
    c.search.active && !SearchBarIsEmpty(c)
  }

  /** `numberOfRowsInSection`. */
  function NumberOfRows(c: ListController): (n: nat)
    ensures IsFiltering(c) ==> n == |c.filteredFileList|
    ensures !IsFiltering(c) ==> n == |c.fileList|
  {
    if IsFiltering(c) then |c.filteredFileList| else |c.fileList|
  }

  /** The entry behind a tapped row; the table only reports rows it was
      told exist. */
  function SelectedItem(c: ListController, row: nat): (f: FileObject)
    requires row < NumberOfRows(c)
    ensures IsFiltering(c) ==> f == c.filteredFileList[row]
    ensures !IsFiltering(c) ==> f == c.fileList[row]
  {
    if IsFiltering(c) then c.filteredFileList[row] else c.fileList[row]
  }

  /** Every row the table shows while filtering with an up-to-date filter
      holds an entry of the full list whose name matches the bar's text;
      when not filtering, row `k` is entry `k` of the full list. */
  lemma SelectionComesFromVisibleList(c: ListController, row: nat)
    requires FilterUpToDate(c)
    requires row < NumberOfRows(c)
    ensures SelectedItem(c, row) in c.fileList
    ensures IsFiltering(c) ==> MatchesQuery(SelectedItem(c, row), c.search.text.value)
    ensures !IsFiltering(c) ==> SelectedItem(c, row) == c.fileList[row]
  {
    if IsFiltering(c) {
      var f := SelectedItem(c, row);
      KeepSound(c.fileList, f => MatchesQuery(f, c.search.text.value));
      KeepCounts(c.fileList, f => MatchesQuery(f, c.search.text.value));
      assert f in multiset(c.filteredFileList);
    }
  }

  // ---------------------------------------------------------------------------
  // Selecting a row

  /** What a tap leads to. */
  datatype Navigation =
    | PushListing(listing: ListController)
    | PresentTextViewer(textData: FileObject)
    | PresentImageViewer(imageData: FileObject)
    | PresentVideoPlayer(playItem: FileObject)
    | StayPut

  /** `didSelectRowAt`: a directory pushes a new controller listing the
      directory's children (unsorted, titled with its file name); text, image
      and video entries open their viewer with the entry; anything else does
      nothing. `contents` is the enumeration of the tapped directory. */
  function DidSelectRow(
    c: ListController, row: nat, contents: Option<seq<string>>,
    makeEntry: string -> FileObject)
    : (nav: Navigation)
    requires row < NumberOfRows(c)
    requires SelectedItem(c, row).kind == Directory ==> contents.Some?
    ensures var data := SelectedItem(c, row);
      match data.kind
      case Directory =>
        && nav.PushListing?
        && nav.listing == FreshController.(fileList := Listing(data.url, contents.value, makeEntry),
                                           title := Some(data.fileName))
      case Text => nav == PresentTextViewer(data)
      case Image => nav == PresentImageViewer(data)
      case Video => nav == PresentVideoPlayer(data)
      case Other => nav == StayPut
  {
    var data := SelectedItem(c, row);
    match data.kind
    case Directory =>
      var loaded := FreshController.(fileList := Listing(data.url, contents.value, makeEntry));
      PushListing(ViewDidLoad(loaded.(title := Some(data.fileName)), false, "", None, makeEntry))
    case Text => PresentTextViewer(data)
    case Image => PresentImageViewer(data)
    case Video => PresentVideoPlayer(data)
    case Other => StayPut
  }

  // ---------------------------------------------------------------------------
  // Example

  /** A folder enumerated as a file, another file and a directory is shown
      with the directory first and then the two files in case-insensitive
      name order; for instance `Zebra.mp4`, `apple.txt` and the directory
      `Mango` are shown as `Mango`, `apple.txt`, `Zebra.mp4`. */
  lemma RootListingExample(zebra: FileObject, apple: FileObject, mango: FileObject)
    requires IsDirectoryEntry(mango) && !IsDirectoryEntry(apple) && !IsDirectoryEntry(zebra)
    requires Less(NameKey(apple), NameKey(zebra))
    ensures SortLoaded([zebra, apple, mango]) == [mango, apple, zebra]
  {
    var input := [zebra, apple, mango];
    var r := SortLoaded(input);
    OneDirectory(zebra, apple, mango);
    assert |r| == 3 by {
      assert |multiset(r)| == |multiset(input)|;
    }
    assert IsDirectoryEntry(r[0]) && !IsDirectoryEntry(r[1]) && !IsDirectoryEntry(r[2]);
    assert LessOrEqual(NameKey(r[1]), NameKey(r[2]));
    ThreeEntryOrder(r, zebra, apple, mango);
  }

  lemma OneDirectory(zebra: FileObject, apple: FileObject, mango: FileObject)
    requires IsDirectoryEntry(mango) && !IsDirectoryEntry(apple) && !IsDirectoryEntry(zebra)
    ensures |Directories([zebra, apple, mango])| == 1
  {
    var input := [zebra, apple, mango];
    assert input[1..] == [apple, mango] && input[1..][1..] == [mango] && [mango][1..] == [];
    GroupsStep(input);
    GroupsStep(input[1..]);
    GroupsStep([mango]);
  }

  lemma ThreeEntryOrder(r: seq<FileObject>, zebra: FileObject, apple: FileObject, mango: FileObject)
    requires IsDirectoryEntry(mango) && !IsDirectoryEntry(apple) && !IsDirectoryEntry(zebra)
    requires Less(NameKey(apple), NameKey(zebra))
    requires |r| == 3 && multiset(r) == multiset([zebra, apple, mango])
    requires IsDirectoryEntry(r[0]) && !IsDirectoryEntry(r[1]) && !IsDirectoryEntry(r[2])
    requires LessOrEqual(NameKey(r[1]), NameKey(r[2]))
    ensures r == [mango, apple, zebra]
  {
    assert r == [r[0], r[1], r[2]];
    assert r[0] == mango by {
      assert r[0] in multiset(r);
    }
    assert multiset{r[1], r[2]} == multiset{apple, zebra} by {
      assert multiset(r) == multiset{r[0]} + multiset{r[1], r[2]};
      assert multiset([zebra, apple, mango]) == multiset{mango} + multiset{apple, zebra};
    }
    LessAsymmetric(NameKey(apple), NameKey(zebra));
    assert r[1] != zebra;
  }

  /** The concrete instance. */
  lemma DocumentsFolderExample()
    ensures
      var mango := FileObject("/Documents/Mango", "Mango", "Mango", "directory", Directory);
      var apple := FileObject("/Documents/apple.txt", "apple.txt", "apple", "txt", Text);
      var zebra := FileObject("/Documents/Zebra.mp4", "Zebra.mp4", "Zebra", "mp4", Video);
      SortLoaded([zebra, apple, mango]) == [mango, apple, zebra]
  {
    var mango := FileObject("/Documents/Mango", "Mango", "Mango", "directory", Directory);
    var apple := FileObject("/Documents/apple.txt", "apple.txt", "apple", "txt", Text);
    var zebra := FileObject("/Documents/Zebra.mp4", "Zebra.mp4", "Zebra", "mp4", Video);
    assert NameKey(apple)[0] == 'a' && NameKey(zebra)[0] == 'z';
    RootListingExample(zebra, apple, mango);
  }
}
