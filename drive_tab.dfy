/** The Drive tab's browsing state (frontend/src/components/workspace/DriveTab.jsx):
    the listing query and orderBy it sends, the folders-first comparator, the
    breadcrumb path, the four-state sort cycle, and page loading. The Drive
    listing itself is not part of this model: each load takes its outcome as
    a parameter and returns the request it would send. */
module DriveTab {
  import opened Common

  /** One entry of the listing. */
  datatype DriveFile = DriveFile(id: Id, name: string, mimeType: string)

  /** One breadcrumb; the root's id is null. */
  datatype Crumb = Crumb(id: Option<Id>, name: string)

  datatype SortKey = ModifiedTime | Name | FoldersFirst
  datatype Order = Asc | Desc
  datatype SortState = SortState(key: SortKey, order: Order)

  /** The arguments of `driveApi.listFiles(pageSize, query, orderBy, pageToken)`. */
  datatype ListRequest = ListRequest(pageSize: nat, query: string, orderBy: string, pageToken: Option<string>)

  /** What a listing call produces: a successful page, a response whose
      `success` is false, or an exception with an optional server message. */
  datatype ListResult =
    | Listed(files: Option<seq<DriveFile>>, nextPageToken: Option<string>)
    | Unsuccessful
    | Failed(message: Option<string>)

  const PAGE_SIZE: nat := 100
  const ROOT := Crumb(None, "My Drive")

  // ------------------------------------------------------------- request

  /** The listing query (DriveTab.jsx:44-51): a truthy folder id, else 'root'. */
  function Query(folder: Option<Id>, search: string): string {
    "'" + (if Truthy(folder) then folder.value else "root") + "' in parents and trashed=false"
    + (if search != "" then " and name contains '" + search + "'" else "")
  }

  /** An empty search sends the bare folder query; any other search extends
      it by exactly the name clause, so the two are never equal. */
  lemma QuerySearchClause(folder: Option<Id>, search: string)
    ensures search == "" <==> Query(folder, search) == Query(folder, "")
    ensures search != "" ==> Query(folder, search) == Query(folder, "") + " and name contains '" + search + "'"
    ensures !Truthy(folder) ==> Query(folder, search) == Query(None, search)
  {
    if search != "" {
      assert |Query(folder, search)| > |Query(folder, "")|;
    }
  }

  function OrderName(o: Order): string {
    match o
    case Asc => "asc"
    case Desc => "desc"
  }

  /** The orderBy sent with the request (DriveTab.jsx:53-59); folders-first
      is sorted on the client and asks the server for 'modifiedTime desc'. */
  function OrderBy(key: SortKey, order: Order): string {
    match key
    case Name => "name " + OrderName(order)
    case ModifiedTime => "modifiedTime " + OrderName(order)
    case FoldersFirst => "modifiedTime desc"
  }

  /** Only the four orderBy values the Drive API accepts are ever sent, and
      the folders-first request ignores the order. */
  lemma OrderByIsValid(key: SortKey, order: Order)
    ensures OrderBy(key, order) in {"name asc", "name desc", "modifiedTime asc", "modifiedTime desc"}
    ensures key == FoldersFirst ==> OrderBy(key, order) == OrderBy(ModifiedTime, Desc)
    ensures key != FoldersFirst ==> OrderBy(key, order) != OrderBy(key, if order == Asc then Desc else Asc)
  {
    assert "name " + OrderName(Asc) == "name asc" && "name " + OrderName(Desc) == "name desc";
    assert "modifiedTime " + OrderName(Asc) == "modifiedTime asc";
    assert "modifiedTime " + OrderName(Desc) == "modifiedTime desc";
    assert "name asc"[5] != "name desc"[5] && "modifiedTime asc"[13] != "modifiedTime desc"[13];
  }

  // ---------------------------------------------------------- comparator

  /** `s.includes(sub)`. */
  predicate Contains(s: string, sub: string)
    decreases |s|
  {
    StartsWith(s, sub) || (s != [] && Contains(s[1..], sub))
  }

  predicate IsFolder(f: DriveFile) {
    Contains(f.mimeType, "folder")
  }

  /** The folders-first comparator (DriveTab.jsx:67-75); same-kind entries
      fall back to `localeCompare` on the names. */
  function CompareFoldersFirst(a: DriveFile, b: DriveFile, localeCompare: (string, string) -> int): int {
    if IsFolder(a) && !IsFolder(b) then -1
    else if !IsFolder(a) && IsFolder(b) then 1
    else localeCompare(a.name, b.name)
  }

  /** A sequence in the order `sort` leaves it under a comparator. */
  predicate SortedBy(s: seq<DriveFile>, localeCompare: (string, string) -> int) {
    forall i, j :: 0 <= i < j < |s| ==> CompareFoldersFirst(s[i], s[j], localeCompare) <= 0
  }

  /** In any sequence ordered by the comparator every folder precedes every
      non-folder, and entries of the same kind are in name order. */
  lemma FoldersComeFirst(s: seq<DriveFile>, localeCompare: (string, string) -> int)
    requires SortedBy(s, localeCompare)
    ensures forall i, j :: 0 <= i < j < |s| && IsFolder(s[j]) ==> IsFolder(s[i])
    ensures forall i, j :: 0 <= i < j < |s| && IsFolder(s[i]) == IsFolder(s[j]) ==>
      localeCompare(s[i].name, s[j].name) <= 0
  {
    forall i, j | 0 <= i < j < |s| && IsFolder(s[j])
      ensures IsFolder(s[i])
    {
      assert CompareFoldersFirst(s[i], s[j], localeCompare) <= 0;
    }
  }

  /** The comparator is antisymmetric whenever `localeCompare` is. */
  lemma CompareAntisymmetric(a: DriveFile, b: DriveFile, localeCompare: (string, string) -> int)
    requires localeCompare(a.name, b.name) == -localeCompare(b.name, a.name)
    ensures CompareFoldersFirst(a, b, localeCompare) == -CompareFoldersFirst(b, a, localeCompare)
  {
  }

  // ---------------------------------------------------------- breadcrumb

  /** `folderPath.findIndex(item => item.id === id)`. */
  function FindCrumb(path: seq<Crumb>, id: Option<Id>): (r: Option<nat>)
    ensures r.None? <==> forall i :: 0 <= i < |path| ==> path[i].id != id
    ensures r.Some? ==> r.value < |path| && path[r.value].id == id
    ensures r.Some? ==> forall i :: 0 <= i < r.value ==> path[i].id != id
  {
    if path == [] then None
    else if path[0].id == id then Some(0)
    else match FindCrumb(path[1..], id)
      case None =>
        assert forall i :: 1 <= i < |path| ==> path[i] == path[1..][i - 1];
        None
      case Some(k) =>
        assert forall i :: 1 <= i < |path| ==> path[i] == path[1..][i - 1];
        Some(k + 1)
  }

  /** The path after navigating to a folder other than the current one
      (DriveTab.jsx:143-151): cut back to an entry already on it, else append. */
  function NewPath(path: seq<Crumb>, id: Option<Id>, name: string): seq<Crumb> {
    match FindCrumb(path, id)
    case Some(k) => path[..k + 1]
    case None => path + [Crumb(id, name)]
  }

  predicate UniqueCrumbs(path: seq<Crumb>) {
    forall i, j :: 0 <= i < j < |path| ==> path[i].id != path[j].id
  }

  /** A breadcrumb trail: root first, the current folder last, no folder twice. */
  predicate PathShape(path: seq<Crumb>, current: Option<Id>) {
    && |path| >= 1
    && path[0] == ROOT
    && path[|path| - 1].id == current
    && UniqueCrumbs(path)
  }

  /** Navigation keeps the trail's shape with the target folder last; going
      back to a folder on the trail cuts it right after that folder, and a
      new folder is appended as the one extra entry. */
  lemma NavigateKeepsPath(path: seq<Crumb>, current: Option<Id>, id: Option<Id>, name: string)
    requires PathShape(path, current)
    ensures PathShape(NewPath(path, id, name), id)
    ensures (exists k :: 0 <= k < |path| && path[k].id == id) ==>
      NewPath(path, id, name) <= path
    ensures (forall k :: 0 <= k < |path| ==> path[k].id != id) ==>
      NewPath(path, id, name) == path + [Crumb(id, name)]
  {
    var r := NewPath(path, id, name);
    match FindCrumb(path, id)
    case Some(k) =>
      assert r == path[..k + 1];
      assert path[0].id != id ==> k != 0;
    case None =>
      assert r == path + [Crumb(id, name)];
      assert r[0] == ROOT;
      forall i, j | 0 <= i < j < |r|
        ensures r[i].id != r[j].id
      {
        if j == |path| {
          assert r[i] == path[i];
        }
      }
  }

  /** The home crumb always resets the trail to the root alone. */
  lemma RootResetsPath(path: seq<Crumb>, current: Option<Id>, name: string)
    requires PathShape(path, current)
    ensures NewPath(path, None, name) == [ROOT]
  {
  }

  /** Opening a subfolder and then clicking the crumb of the folder one came
      from restores the original trail. */
  lemma {:induction false} BackUndoesForward(path: seq<Crumb>, current: Option<Id>, id: Option<Id>, name: string, backName: string)
    requires PathShape(path, current)
    requires forall k :: 0 <= k < |path| ==> path[k].id != id
    ensures NewPath(NewPath(path, id, name), current, backName) == path
  {
    var fwd := path + [Crumb(id, name)];
    assert NewPath(path, id, name) == fwd;
    var last := |path| - 1;
    assert fwd[last].id == current;
    match FindCrumb(fwd, current)
    case None =>
      assert false;
    case Some(k) =>
      assert k == last;
      assert fwd[..k + 1] == path;
  }

  // ---------------------------------------------------------- sort cycle

  /** cycleSort's transition (DriveTab.jsx:180-195). */
  function NextSort(s: SortState): SortState {
    if s.key == ModifiedTime then SortState(Name, Asc)
    else if s.key == Name && s.order == Asc then SortState(Name, Desc)
    else if s.key == Name && s.order == Desc then SortState(FoldersFirst, Asc)
    else SortState(ModifiedTime, Desc)
  }

  /** The four states the button cycles through, starting from the initial one. */
  predicate InCycle(s: SortState) {
    s in {SortState(ModifiedTime, Desc), SortState(Name, Asc), SortState(Name, Desc), SortState(FoldersFirst, Asc)}
  }

  /** Any state enters the cycle after one click; within it, four clicks
      return to the start and fewer do not. */
  lemma SortCycle(s: SortState)
    ensures InCycle(NextSort(s))
    ensures InCycle(s) ==> NextSort(NextSort(NextSort(NextSort(s)))) == s
    ensures InCycle(s) ==> NextSort(s) != s && NextSort(NextSort(s)) != s && NextSort(NextSort(NextSort(s))) != s
  {
  }

  /** getSortLabel (DriveTab.jsx:197-201). */
  function SortLabel(s: SortState): string {
    if s.key == FoldersFirst then "Folders First"
    else if s.key == Name then (if s.order == Asc then "Name (A-Z)" else "Name (Z-A)")
    else "Modified Date"
  }

  /** The label tells the four cycle states apart. */
  lemma SortLabelsDistinct(s: SortState, t: SortState)
    requires InCycle(s) && InCycle(t) && s != t
    ensures SortLabel(s) != SortLabel(t)
  {
    assert "Name (A-Z)"[6] != "Name (Z-A)"[6];
    assert "Folders First"[0] != "Modified Date"[0];
    assert "Name (A-Z)"[0] != "Modified Date"[0];
    assert "Name (A-Z)"[0] != "Folders First"[0];
    assert "Name (Z-A)"[0] != "Modified Date"[0];
    assert "Name (Z-A)"[0] != "Folders First"[0];
  }

  /** A reload that uses the sort state from before the click asks for a
      different server order than the state now shown, except on the step
      from folders-first back to modified date. */
  lemma StaleOrderDiffers(s: SortState)
    requires InCycle(s) && s.key != FoldersFirst
    ensures OrderBy(s.key, s.order) != OrderBy(NextSort(s).key, NextSort(s).order)
  {
    assert "modifiedTime desc"[0] != "name asc"[0];
    assert "name asc"[5] != "name desc"[5];
    assert "name desc"[0] != "modifiedTime desc"[0];
  }

  /** `response.data.nextPageToken || null`. */
  function TokenOf(t: Option<string>): (r: Option<string>)
    ensures r.Some? <==> Truthy(t)
    ensures r.Some? ==> r == t
  {
    if Truthy(t) then t else None
  }

  // -------------------------------------------------------------- state

  class DriveBrowser {
    /** `fetched.sort(CompareFoldersFirst)`: Array.prototype.sort is not
        part of this model. */
    const sortFolders: seq<DriveFile> -> seq<DriveFile>
    var files: seq<DriveFile>
    var loadingMore: bool
    var nextPageToken: Option<string>
    var hasMore: bool
    var searchQuery: string
    var sortBy: SortKey
    var sortOrder: Order
    /** The `sortBy` the pending load-more request was issued under: the
        loadMoreFiles closure of the render in which the user clicked. */
    var pendingSort: SortKey
    var error: Option<string>
    var currentFolderId: Option<Id>
    var folderPath: seq<Crumb>

    /** The trail matches the current folder, and hasMore mirrors a truthy token. */
    ghost predicate Valid() reads this {
      && PathShape(folderPath, currentFolderId)
      && (hasMore <==> nextPageToken.Some?)
      && (nextPageToken.Some? ==> Truthy(nextPageToken))
    }

    /** The initial state (DriveTab.jsx:5-23). */
    constructor (sortFolders: seq<DriveFile> -> seq<DriveFile>)
      ensures Valid()
      ensures this.sortFolders == sortFolders
      ensures files == [] && !loadingMore && nextPageToken.None? && searchQuery == ""
      ensures sortBy == ModifiedTime && sortOrder == Desc && error.None?
      ensures currentFolderId.None? && folderPath == [ROOT]
      ensures pendingSort == sortBy
    {
      this.sortFolders := sortFolders;
      files, loadingMore, nextPageToken, hasMore := [], false, None, false;
      searchQuery, sortBy, sortOrder, error := "", ModifiedTime, Desc, None;
      pendingSort := ModifiedTime;
      currentFolderId, folderPath := None, [ROOT];
    }

    /** The fetched page, folder-sorted on the client under folders-first. */
    function Arranged(key: SortKey, fetched: seq<DriveFile>): seq<DriveFile> {
      if key == FoldersFirst then sortFolders(fetched) else fetched
    }

    /** loadFiles (DriveTab.jsx:36-87) as seen by a closure holding the sort
        state `view`: the token is cleared first, a successful page replaces
        the files, and a thrown error is reported. */
    method LoadFiles(view: SortState, result: ListResult) returns (req: ListRequest)
      requires Valid()
      modifies this`files, this`nextPageToken, this`hasMore, this`error
      ensures Valid()
      ensures req == ListRequest(PAGE_SIZE, Query(currentFolderId, searchQuery), OrderBy(view.key, view.order), None)
      ensures result.Listed? ==> files == Arranged(view.key, result.files.GetOr([]))
      ensures result.Listed? ==> nextPageToken == TokenOf(result.nextPageToken)
      ensures !result.Listed? ==> files == old(files) && nextPageToken.None?
      ensures error == (if result.Failed? then Some(OrElse(result.message, "Failed to load Drive files.")) else None)
    {
      req := ListRequest(PAGE_SIZE, Query(currentFolderId, searchQuery), OrderBy(view.key, view.order), None);
      error, nextPageToken, hasMore := None, None, false;
      match result
      case Listed(fetched, token) =>
        files := Arranged(view.key, fetched.GetOr([]));
        nextPageToken := TokenOf(token);
        hasMore := Truthy(token);
      case Unsuccessful =>
      case Failed(message) =>
        error := Some(OrElse(message, "Failed to load Drive files."));
    }

    /** A reload with the state as it is now (mount, search, folder creation). */
    method Refresh(result: ListResult) returns (req: ListRequest)
      requires Valid()
      modifies this`files, this`nextPageToken, this`hasMore, this`error
      ensures Valid()
      ensures req == ListRequest(PAGE_SIZE, Query(currentFolderId, searchQuery), OrderBy(sortBy, sortOrder), None)
      ensures result.Listed? ==> files == Arranged(sortBy, result.files.GetOr([]))
      ensures result.Listed? ==> nextPageToken == TokenOf(result.nextPageToken)
      ensures !result.Listed? ==> files == old(files) && nextPageToken.None?
      ensures error == (if result.Failed? then Some(OrElse(result.message, "Failed to load Drive files.")) else None)
    {
      req := LoadFiles(SortState(sortBy, sortOrder), result);
    }

    method SetSearch(q: string)
      modifies this`searchQuery
      ensures searchQuery == q
    {
      searchQuery := q;
    }

    /** navigateToFolder (DriveTab.jsx:140-155), followed by the reload the
        folder change triggers (DriveTab.jsx:31-34). */
    method Navigate(id: Option<Id>, name: string, result: ListResult) returns (req: Option<ListRequest>)
      requires Valid()
      modifies this`currentFolderId, this`folderPath, this`files, this`nextPageToken, this`hasMore, this`error
      ensures Valid()
      ensures id == old(currentFolderId) ==> (req.None? &&
        folderPath == old(folderPath) && files == old(files) && nextPageToken == old(nextPageToken) && error == old(error))
      ensures id != old(currentFolderId) ==> (currentFolderId == id &&
        folderPath == NewPath(old(folderPath), id, name) &&
        req == Some(ListRequest(PAGE_SIZE, Query(id, searchQuery), OrderBy(sortBy, sortOrder), None)))
      ensures id != old(currentFolderId) && result.Listed? ==>
        files == Arranged(sortBy, result.files.GetOr([])) && nextPageToken == TokenOf(result.nextPageToken)
      ensures id != old(currentFolderId) && !result.Listed? ==> files == old(files) && nextPageToken.None?
      ensures id != old(currentFolderId) ==>
        error == (if result.Failed? then Some(OrElse(result.message, "Failed to load Drive files.")) else None)
    {
      if id == currentFolderId {
        return None;
      }
      NavigateKeepsPath(folderPath, currentFolderId, id, name);
      folderPath := NewPath(folderPath, id, name);
      currentFolderId := id;
      var r := Refresh(result);
      req := Some(r);
    }

    /** The first half of loadMoreFiles (DriveTab.jsx:89-113): nothing
        without a token or while a page is loading; otherwise the request for
        the next page, with loading marked. */
    method BeginLoadMore() returns (req: Option<ListRequest>)
      requires Valid()
      modifies this`loadingMore, this`pendingSort
      ensures Valid()
      ensures req.None? <==> (!Truthy(old(nextPageToken)) || old(loadingMore))
      ensures req.None? ==> loadingMore == old(loadingMore) && pendingSort == old(pendingSort)
      ensures req.Some? ==> (loadingMore && pendingSort == sortBy &&
        req.value == ListRequest(PAGE_SIZE, Query(currentFolderId, searchQuery), OrderBy(sortBy, sortOrder), nextPageToken))
    {
      if !Truthy(nextPageToken) || loadingMore {
        return None;
      }
      loadingMore, pendingSort := true, sortBy;
      req := Some(ListRequest(PAGE_SIZE, Query(currentFolderId, searchQuery), OrderBy(sortBy, sortOrder), nextPageToken));
    }

    /** The second half (DriveTab.jsx:114-137): a page is appended after the
        files shown now, folder-sorted only when the click's sort key
        (`pendingSort`) was folders-first, whatever the key is by now; the
        token and hasMore follow the response. */
    method FinishLoadMore(result: ListResult)
      requires Valid() && loadingMore
      modifies this`files, this`nextPageToken, this`hasMore, this`error, this`loadingMore
      ensures Valid()
      ensures !loadingMore
      ensures result.Listed? ==> (files == old(files) + Arranged(pendingSort, result.files.GetOr([])) &&
        nextPageToken == TokenOf(result.nextPageToken) && error == old(error))
      ensures result.Unsuccessful? ==> files == old(files) && nextPageToken == old(nextPageToken) && error == old(error)
      ensures result.Failed? ==> (files == old(files) && nextPageToken == old(nextPageToken) &&
        error == Some(OrElse(result.message, "Failed to load more files.")))
    {
      match result {
        case Listed(fetched, token) =>
          files := files + Arranged(pendingSort, fetched.GetOr([]));
          nextPageToken := TokenOf(token);
          hasMore := Truthy(token);
        case Unsuccessful =>
        case Failed(message) =>
          error := Some(OrElse(message, "Failed to load more files."));
      }
      loadingMore := false;
    }

    /** cycleSort as written (DriveTab.jsx:180-195): the state advances, but
        the reload scheduled with setTimeout runs the loadFiles of the render
        that defined the handler, which still sees the previous sort state. */
    method CycleSort(result: ListResult) returns (req: ListRequest)
      requires Valid()
      modifies this`sortBy, this`sortOrder, this`files, this`nextPageToken, this`hasMore, this`error
      ensures Valid()
      ensures SortState(sortBy, sortOrder) == NextSort(SortState(old(sortBy), old(sortOrder)))
      ensures req.orderBy == OrderBy(old(sortBy), old(sortOrder))
      ensures result.Listed? ==> files == Arranged(old(sortBy), result.files.GetOr([]))
      ensures result.Listed? ==> nextPageToken == TokenOf(result.nextPageToken)
      ensures !result.Listed? ==> files == old(files) && nextPageToken.None?
      ensures error == (if result.Failed? then Some(OrElse(result.message, "Failed to load Drive files.")) else None)
    {
      var seen := SortState(sortBy, sortOrder);
      var next := NextSort(seen);
      sortBy, sortOrder := next.key, next.order;
      req := LoadFiles(seen, result);
    }

    /** cycleSort with the reload reading the new state. */
    method CycleSortFresh(result: ListResult) returns (req: ListRequest)
      requires Valid()
      modifies this`sortBy, this`sortOrder, this`files, this`nextPageToken, this`hasMore, this`error
      ensures Valid()
      ensures SortState(sortBy, sortOrder) == NextSort(SortState(old(sortBy), old(sortOrder)))
      ensures req.orderBy == OrderBy(sortBy, sortOrder)
      ensures result.Listed? ==> files == Arranged(sortBy, result.files.GetOr([]))
      ensures result.Listed? ==> nextPageToken == TokenOf(result.nextPageToken)
      ensures !result.Listed? ==> files == old(files) && nextPageToken.None?
      ensures error == (if result.Failed? then Some(OrElse(result.message, "Failed to load Drive files.")) else None)
    {
      var next := NextSort(SortState(sortBy, sortOrder));
      sortBy, sortOrder := next.key, next.order;
      req := Refresh(result);
    }
  }

  /** Scenario: from the initial state one click on the sort button shows
      "Name (A-Z)" while the reload still asks for 'modifiedTime desc'; with
      the reload reading the new state it asks for 'name asc'. */
  method FirstSortClick() returns (shown: string, staleOrder: string, freshOrder: string)
    ensures shown == "Name (A-Z)" && staleOrder == "modifiedTime desc" && freshOrder == "name asc"
  {
    var page := Listed(Some([]), None);
    var a := new DriveBrowser(s => s);
    var r1 := a.CycleSort(page);
    shown, staleOrder := SortLabel(SortState(a.sortBy, a.sortOrder)), r1.orderBy;
    var b := new DriveBrowser(s => s);
    var r2 := b.CycleSortFresh(page);
    freshOrder := r2.orderBy;
  }

  /** Scenario: a second "load more" click while the first page is loading
      sends no request. */
  method DoubleLoadMore() returns (first: Option<ListRequest>, second: Option<ListRequest>)
    ensures first.Some? && first.value.pageToken == Some("p2") && second.None?
  {
    var b := new DriveBrowser(s => s);
    var _ := b.Refresh(Listed(Some([]), Some("p2")));
    first := b.BeginLoadMore();
    second := b.BeginLoadMore();
  }

  /** Scenario: a page is requested under name order, the sort is cycled on
      to folders-first (each reload listing nothing yet) before the page
      arrives, and the page is then shown in the order the API returned it,
      without the client-side folders-first sort. */
  method SortChangedWhileLoading(b: DriveBrowser, token: string, page: seq<DriveFile>)
    requires b.Valid() && b.sortBy == Name && b.sortOrder == Asc
    requires b.nextPageToken == Some(token) && token != "" && !b.loadingMore
    modifies b
    ensures b.sortBy == FoldersFirst && !b.loadingMore
    ensures b.files == page
  {
    var request := b.BeginLoadMore();
    var reload := Listed(Some([]), Some(token));
    var _ := b.CycleSort(reload);
    var _ := b.CycleSort(reload);
    b.FinishLoadMore(Listed(Some(page), None));
  }
}
