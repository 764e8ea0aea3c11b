# nplayer controller rules in Dafny

A functional model of the two pieces of decision logic in the nplayer video
player's controllers:

- **The file browser** (`FileListViewController`). It loads the entries of a
  folder and, for the root of the navigation stack only, puts them in display
  order. Directories (entries whose `extension` is the sentinel
  `"directory"`) come first. Each group is ordered by lower-cased file name.
  The browser filters entries by a case-insensitive search string. It chooses
  whether the table reads the full list or the filtered one, and it acts on a
  tapped row according to the entry's file type.
- **The video detail screen** (`VideoDetailViewController`). It first shows the
  local information: the display name and the last video and last audio track.
  It then searches the catalog for the file name. On a hit, the first result's
  id drives a series request, an episode request and the "more" link. The two
  detail responses fill in disjoint parts of the screen: overview, writer,
  guests, star rating and translated title for an episode; creator and genres
  for a series.

Files:

- `wrappers.dfy`: `Option`.
- `strings.dfy`: lower-casing, substring search, the lexicographic order
  behind `String <`, and decimal rendering of `Int` with its parser.
- `seqs.dfy`: order-preserving selection (`Keep`, Swift's `filter`), reversal
  and the subsequence relation.
- `files.dfy`: the `FileObject` record and `FileType`.
- `file_list.dfy`: the list controller.
- `video_detail.dfy`: the detail view state and its updates.

Controller state is an immutable record, and each UIKit callback is a pure
function from the old record to the new one. Values computed by code outside
this model are inputs to the model:

- the directory enumeration (`contentsOfDirectory`);
- `FileObject(url:)` (a function parameter `makeEntry`);
- `getFileType()` (the record's `kind` field);
- the catalog's responses;
- the crew, guest and genre texts;
- the air year.

Each force-unwrap (`!`) in the source is a `requires`:

- `fileList!` after `try?`;
- `searchBar.text!`;
- `result!` and `tvID!`;
- `responseData!`;
- the parse of `air_date`.

Three behaviours of the code worth knowing, which the model keeps as written:

- A failed detail fetch is not absorbed. The callbacks force-unwrap
  `responseData` and ignore their `success` flag. So `OnDetailResponse`
  requires a payload, and `LookupCompletesInAnyOrder` holds whatever success
  flags the callbacks report.
- There is no liveness guard. The closures capture `self` strongly and mutate
  the view whenever they run, so the model has no "view still live" check.
- The sort is not stable. The code gathers directories by a reversed scan, so
  the directory block starts in reverse enumeration order, and Swift's `sort`
  does not promise stability. The contracts therefore state only what the
  code guarantees: a permutation, the partition, and the order within each
  block. `GatherDirectories` states the reversed order exactly.

## Model

| member | source | states |
|---|---|---|
| `FileList.SortByName` | VideoPlayer/Controller/FileListViewController.swift:111-117 | The result is a permutation of the input, and no entry is followed by one whose lower-cased name is strictly smaller. |
| `FileList.InsertByName` | VideoPlayer/Controller/FileListViewController.swift:111-117 | Inserting one entry into a name-sorted list keeps it sorted and adds exactly that entry. |
| `FileList.GatherDirectories` | VideoPlayer/Controller/FileListViewController.swift:100-109 | The reversed scan collects exactly the directory entries, in reverse enumeration order. What remains is exactly the other entries, in their original order. |
| `FileList.SortLoaded` | VideoPlayer/Controller/FileListViewController.swift:100-120 | The display order is a permutation of the loaded list. Its leading block holds exactly the directory entries, and that block's length equals the number of directories in the input. Within each block, lower-cased names never decrease. |
| `FileList.BlocksDisplayOrdered` | VideoPlayer/Controller/FileListViewController.swift:119 | Putting a sorted directory block in front of a sorted file block gives a list in display order. |
| `FileList.RootListingExample` | VideoPlayer/Controller/FileListViewController.swift:100-120 | Two files and one directory come out as: the directory, then the two files in case-insensitive name order. |
| `FileList.DocumentsFolderExample` | VideoPlayer/Controller/FileListViewController.swift:100-120 | `Zebra.mp4`, `apple.txt` and the directory `Mango` are shown as `Mango`, `apple.txt`, `Zebra.mp4`. |
| `FileList.ListFilesFromUrl` | VideoPlayer/Controller/FileListViewController.swift:87-97 | The earlier entries are untouched. Exactly one entry is appended per child name, in enumeration order, built from the child's path under the folder. |
| `FileList.ViewDidLoad` | VideoPlayer/Controller/FileListViewController.swift:28-38 | Only the root controller loads the documents folder and sorts; the result is a permutation of the listing, in display order. A pushed controller keeps its list unchanged, in raw enumeration order. |
| `FileList.FilterContent` | VideoPlayer/Controller/FileListViewController.swift:125-131 | The filtered list is the order-preserving subsequence of the list whose lower-cased names contain the lower-cased query. Each such entry appears as often as in the list. The list and the search bar are unchanged. |
| `FileList.FilterIgnoresQueryCase` | VideoPlayer/Controller/FileListViewController.swift:126 | Filtering by the lower-cased query gives the same list as filtering by the query itself: the search is insensitive to the query's case. |
| `Seqs.KeepCongruent` | VideoPlayer/Controller/FileListViewController.swift:125-127 | The filter's result depends only on the predicate's answers for the list's own elements. |
| `FileList.UpdateSearchResults` | VideoPlayer/Controller/FileListViewController.swift:280-284 | After a search update, the filtered list is the filter of the current list by the bar's text, and nothing else in the controller changes. |
| `FileList.NumberOfRows` | VideoPlayer/Controller/FileListViewController.swift:191-196 | The row count is the filtered list's length while filtering (search active and bar non-empty), and the full list's length otherwise. |
| `FileList.SelectedItem` | VideoPlayer/Controller/FileListViewController.swift:225-231 | A tapped row is read from the filtered list while filtering and from the full list otherwise. |
| `FileList.SelectionComesFromVisibleList` | VideoPlayer/Controller/FileListViewController.swift:133-139 | With an up-to-date filter, every row shown while filtering is an entry of the full list whose name matches the bar's text. Otherwise row k is entry k. |
| `FileList.DidSelectRow` | VideoPlayer/Controller/FileListViewController.swift:234-265 | A directory pushes a fresh controller, with an inactive, empty search bar and an empty filtered list, titled with its file name and listing its children unsorted. Text, image and video entries open their viewer with the entry. Any other type does nothing. |
| `Seqs.KeepSound` | VideoPlayer/Controller/FileListViewController.swift:126-128 | Every element the filter keeps satisfies the predicate. |
| `Seqs.KeepCounts` | VideoPlayer/Controller/FileListViewController.swift:126-128 | The filter keeps each satisfying element exactly as often as it occurs, and no other element. |
| `Seqs.KeepIsSubsequence` | VideoPlayer/Controller/FileListViewController.swift:126-128 | The filter's result is a subsequence of its input, so relative order is preserved. |
| `Seqs.KeepPartition` | VideoPlayer/Controller/FileListViewController.swift:103-109 | Selecting the directories and selecting the rest together lose and duplicate nothing. |
| `Seqs.ReversePermutes` | VideoPlayer/Controller/FileListViewController.swift:103-106 | Gathering directories in reverse order loses and duplicates nothing. |
| `Strings.LowerNormalises` | VideoPlayer/Controller/FileListViewController.swift:126 | Lower-casing keeps the length, leaves no upper-case letter, and is idempotent; `FilterIgnoresQueryCase` rests on the idempotence. |
| `Strings.LessOrEqualTransitive` | VideoPlayer/Controller/FileListViewController.swift:111-117 | The "not after" relation used by the sort comparator is transitive. |
| `Strings.LessTotal` | VideoPlayer/Controller/FileListViewController.swift:111-117 | Any two names are equal or ordered one way or the other by `<`. |
| `Strings.IntToStringRoundTrip` | VideoPlayer/Controller/VideoDetailViewController.swift:90 | The decimal text of an integer, as interpolated into strings, parses back to that integer. |
| `VideoDetail.LastOfType` | VideoPlayer/Controller/VideoDetailViewController.swift:143-154 | The result is absent exactly when no track has the type. Otherwise it is a track of that type with no track of that type after it. |
| `VideoDetail.SelectTracks` | VideoPlayer/Controller/VideoDetailViewController.swift:143-154 | The scan over the tracks ends with the last `"video"` track and the last `"audio"` track. |
| `VideoDetail.InitialUI` | VideoPlayer/Controller/VideoDetailViewController.swift:129-163 | With a file, the title becomes its display name. Each description label moves to the last track of its kind and stays as it was when that kind is absent. Without a file, nothing changes. |
| `VideoDetail.InitialUIIdempotent` | VideoPlayer/Controller/VideoDetailViewController.swift:129-163 | Running the local-information update twice equals running it once. |
| `VideoDetail.SetVoteStarImageUI` | VideoPlayer/Controller/VideoDetailViewController.swift:237-278 | Stars and score are hidden exactly when the average is at most 0. Star k is full when the average is at least 2k+2. It is half when the average is at least 2k+1 and below 2k+2. Otherwise it is unchanged. |
| `VideoDetail.StarsMonotone` | VideoPlayer/Controller/VideoDetailViewController.swift:243-272 | Starting from empty stars, a larger average never shows less of any star. The premise is needed: below its threshold a star keeps its old image, so the rule is not monotone from arbitrary stars (see `StarsNotMonotoneFromFull`). |
| `VideoDetail.StarsNotMonotoneFromFull` | VideoPlayer/Controller/VideoDetailViewController.swift:243-248 | From five full stars, an average of 0.5 leaves the first star full while 1.5 makes it half: a larger average shows less. |
| `VideoDetail.StarsShowRating` | VideoPlayer/Controller/VideoDetailViewController.swift:243-272 | Starting from empty stars, a positive average shows its whole part, capped at 10, as filled half-stars: a rating out of ten on five stars. |
| `VideoDetail.ComposeTitleShape` | VideoPlayer/Controller/VideoDetailViewController.swift:234 | The translated title opens with the searched title and season and closes with the episode number and name. |
| `VideoDetail.ComposedTitleDeterminesNumbers` | VideoPlayer/Controller/VideoDetailViewController.swift:234 | For a fixed searched title and episode name, the translated title determines the season, the year and the episode number. |
| `VideoDetail.SetTranslateTitleText` | VideoPlayer/Controller/VideoDetailViewController.swift:223-235 | If the searched title, season, episode or name is absent, the view is unchanged. Otherwise only the title changes, to exactly `<title> - Season <s> (<year>) Episode <e> : <name>` with each number in decimal. |
| `VideoDetail.TranslatedTitleIdentifiesEpisode` | VideoPlayer/Controller/VideoDetailViewController.swift:223-235 | Over one searched title, two episodes with the same name get the same translated title only when their season, air year and episode number agree. |
| `VideoDetail.SetTVUI` | VideoPlayer/Controller/VideoDetailViewController.swift:165-221 | An episode shows its overview. Writer and cast are each hidden exactly when their text is empty, and they show that text otherwise. A hidden label keeps its old text. The rating becomes the star-rule result for the vote average, so the stars are hidden exactly when the average is at most 0. The title becomes the translated title. Only these episode-owned fields change. A series hides the creator exactly when `created_by` is empty (otherwise it shows the first creator), hides the genres exactly when the list is empty, keeps a hidden label's old text, and changes nothing else. |
| `VideoDetail.DetailResponsesCommute` | VideoPlayer/Controller/VideoDetailViewController.swift:166-220 | Applying a series response and an episode response in either order gives the same view. |
| `VideoDetail.MoreUrl` | VideoPlayer/Controller/VideoDetailViewController.swift:90 | The link is `https://www.themoviedb.org/tv/`, then the id's decimal text, then `?language=ko-KR`. |
| `VideoDetail.MoreUrlRoundTrip` | VideoPlayer/Controller/VideoDetailViewController.swift:90 | The series id can be read back from the "more" link. |
| `VideoDetail.ViewDidLoad` | VideoPlayer/Controller/VideoDetailViewController.swift:65-73 | The local information is shown first. A search for the file name is issued exactly when there is a file. |
| `VideoDetail.OnSearchResponse` | VideoPlayer/Controller/VideoDetailViewController.swift:73-99 | On a failure or no results, the view falls back to the local information and no request is made. Otherwise the first hit's id feeds a series and an episode request, the "more" button shows the link for that id, and the hit's name becomes the searched title. |
| `VideoDetail.NoMatchKeepsLocalView` | VideoPlayer/Controller/VideoDetailViewController.swift:92-98 | Given the same track information as at load time, a search that finds nothing leaves the view as it was after loading and issues no request. |
| `VideoDetail.OnDetailResponse` | VideoPlayer/Controller/VideoDetailViewController.swift:79-87 | A detail callback applies `setTVUI` to the force-unwrapped payload whatever its success flag says. It leaves the searched title, the "more" link and button, and the track descriptions as they were. |
| `VideoDetail.LookupCompletesInAnyOrder` | VideoPlayer/Controller/VideoDetailViewController.swift:75-91 | After a hit, the two detail callbacks reach the same view in either order, whatever success flags they report. That view keeps the hit's name and link. |

## Left out

- `lowercased()` is modelled for ASCII letters only. Unicode case mapping is not modelled.
- `String <` is modelled as code-point lexicographic order. Unicode canonical equivalence is not modelled.
- `String.contains` is modelled as plain substring search, so an empty query matches every name. This case matters only when the search bar is empty, and then the table does not read the filtered list.
- `appendingPathComponent` is modelled as joining with one `/`. Its other path normalisation is not modelled.
- The model's sort is one particular stable insertion sort. The contracts claim only what Swift's `sort` guarantees.
- Sorting is not idempotent element by element when two names are equal after lower-casing, because each run reverses such directories. Idempotence is therefore not stated.
- `FileObject(url:)`, `getFileType()` and the `extension` computation are defined in files outside this model. They are the `makeEntry` parameter and the record's fields.
- `DidSelectRow`: on a directory the source also clears the current controller's `navigationItem.searchController`. The search controller is a UIKit object outside the modelled state, so this is not modelled.
- `NoMatchKeepsLocalView`: the source re-reads the player's track information when the callback runs, and that can change once the media is parsed. The lemma assumes it is the same as at load time.
- `TextViewerController` only reads a file into a text view, which is I/O.
- Keyboard notifications, constraint animation, search-controller setup, storyboard instantiation and presentation, rotation, the home indicator, popups and the progress view are UIKit side effects.
- The `tableView` and `indexPath` back-references stored on entries are table bookkeeping with no behaviour to state.
- The catalog client, its requests, its `initMemberVariable` reset, and the still-image fetch that sets the thumbnail are network I/O or client state. Their responses are inputs to the model.
- `setInitialUI` also sets the thumbnail, the blurred background and the total-duration text. These are images and lazily filled presentation fields, so `InitialUI` models only the title and the track descriptions.
- The `as!` casts on the player's track dictionaries (`type`, `width`, `height`, `codec`, `channelsNumber`, `rate`) crash on a missing or mistyped key. `Track` is a typed record, so the model assumes these casts succeed.
- `getCrewText`, `getGuestText`, `getGenreText` and `FourCharCode.toCodecName` are defined outside this model. Their texts are fields of the response records, and description labels record the track they describe.
- The `"%.2f"` score text, the `/1000` kHz audio rate and `DateFormatter` year extraction are float formatting and date parsing. The score is kept as a `real`, and the air year is an input.
- Callback timing is not modelled beyond the two callback orders, which `LookupCompletesInAnyOrder` covers.
