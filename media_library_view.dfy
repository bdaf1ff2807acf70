/** The media library screen, the media picker used when composing a post,
    and their shared `MediaLibraryViewModel`
    (`Views/Media/MediaLibraryView.swift`). Every network call is an input:
    what it returned, or the message of the error it raised. */
module MediaLibraryView {
  import opened Wrappers
  import opened Selection
  import opened MediaModels

  /** `toggleSelection` on a `Set<Int>`: an absent id is inserted, a present
      one removed. */
  function ToggleId(s: set<int>, id: int): (r: set<int>)
    ensures id in r <==> id !in s
    ensures forall k :: k != id ==> (k in r <==> k in s)
  {
    if id in s then s - {id} else s + {id}
  }

  /** Toggling the same id twice gives the selection back. */
  lemma ToggleIdTwice(s: set<int>, id: int)
    ensures ToggleId(ToggleId(s, id), id) == s
  {
    var once := ToggleId(s, id);
    var twice := ToggleId(once, id);
    forall k
      ensures k in twice <==> k in s
    {
      if k == id {
        assert id in once <==> id !in s;
      }
    }
  }

  function MediaId(m: Media): int { m.id }

  /** The picker's "Done": the uploads whose id is selected, in upload order. */
  function PickSelected(uploads: seq<Media>, selection: set<int>): (r: seq<Media>)
    ensures forall m :: m in r <==> m in uploads && m.id in selection
    ensures |r| <= |uploads|
  {
    RemoveAll(uploads, (m: Media) => m.id !in selection)
  }

  /** "Done" is disabled while nothing is selected. */
  predicate DoneEnabled(selection: set<int>) {
    selection != {}
  }

  /** The ids `deleteSelected` leaves behind: every id in `ids` is gone and
      every other one stays. */
  lemma DeleteRemovesSelectedIds(uploads: seq<Media>, ids: set<int>)
    ensures IdSet(RemoveAll(uploads, (m: Media) => m.id in ids), MediaId) == IdSet(uploads, MediaId) - ids
  {
    var drop := (m: Media) => m.id in ids;
    var r := RemoveAll(uploads, drop);
    forall k
      ensures k in IdSet(r, MediaId) <==> k in IdSet(uploads, MediaId) - ids
    {
      if k in IdSet(r, MediaId) {
        var i :| 0 <= i < |r| && MediaId(r[i]) == k;
        assert r[i] in r;
        var j :| 0 <= j < |uploads| && uploads[j] == r[i];
      }
      if k in IdSet(uploads, MediaId) - ids {
        var i :| 0 <= i < |uploads| && MediaId(uploads[i]) == k;
        assert uploads[i] in uploads;
        assert uploads[i] in r;
        var j :| 0 <= j < |r| && r[j] == uploads[i];
      }
    }
  }

  /** Picking the uploads whose id is in `sel` yields exactly the ids of
      `sel`, when every one of them is among the uploads. */
  lemma PickSelectedIds(uploads: seq<Media>, sel: set<int>)
    requires sel <= IdSet(uploads, MediaId)
    ensures IdSet(PickSelected(uploads, sel), MediaId) == sel
  {
    var r := PickSelected(uploads, sel);
    forall k | k in IdSet(r, MediaId)
      ensures k in sel
    {
      var i :| 0 <= i < |r| && MediaId(r[i]) == k;
      assert r[i] in r;
    }
    forall k | k in sel
      ensures k in IdSet(r, MediaId)
    {
      var i :| 0 <= i < |uploads| && MediaId(uploads[i]) == k;
      assert uploads[i] in uploads;
      assert uploads[i] in r;
      var j :| 0 <= j < |r| && r[j] == uploads[i];
    }
  }

  /** Opening the picker on a post's media and pressing "Done" at once hands
      back media with exactly the same ids, provided every one of them is
      still among the uploads; "Done" is enabled whenever the post had
      media. */
  lemma SeedThenDone(uploads: seq<Media>, selectedMedia: seq<Media>)
    requires IdSet(selectedMedia, MediaId) <= IdSet(uploads, MediaId)
    ensures IdSet(PickSelected(uploads, IdSet(selectedMedia, MediaId)), MediaId) == IdSet(selectedMedia, MediaId)
    ensures selectedMedia != [] ==> DoneEnabled(IdSet(selectedMedia, MediaId))
  {
    PickSelectedIds(uploads, IdSet(selectedMedia, MediaId));
    if selectedMedia != [] {
      assert MediaId(selectedMedia[0]) in IdSet(selectedMedia, MediaId);
    }
  }

  class MediaLibraryViewModel {
    var uploads: seq<Media>
    var stockPhotos: seq<StockMedia>
    var gifs: seq<GifMedia>
    var isLoading: bool
    var isLoadingStock: bool
    var isLoadingGifs: bool
    var errorMessage: Option<string>

    constructor()
      ensures uploads == [] && stockPhotos == [] && gifs == []
      ensures !isLoading && !isLoadingStock && !isLoadingGifs && errorMessage.None?
    {
      uploads := [];
      stockPhotos := [];
      gifs := [];
      isLoading := false;
      isLoadingStock := false;
      isLoadingGifs := false;
      errorMessage := None;
    }

    /** `loadUploads`: the first page of uploads replaces the list, or the
        error is shown and the list kept; the spinner is off afterwards. */
    method LoadUploads(response: Result<seq<Media>, string>)
      modifies this
      ensures !isLoading
      ensures response.Success? ==> uploads == response.value && errorMessage == old(errorMessage)
      ensures response.Failure? ==> uploads == old(uploads) && errorMessage == Some(response.error)
      ensures stockPhotos == old(stockPhotos) && gifs == old(gifs)
      ensures isLoadingStock == old(isLoadingStock) && isLoadingGifs == old(isLoadingGifs)
    {
      isLoading := true;
      if response.Success? {
        uploads := response.value;
      } else {
        errorMessage := Some(response.error);
      }
      isLoading := false;
    }

    /** `searchStock`: an empty query changes nothing and sends nothing;
        otherwise the results replace the stock photos. */
    method SearchStock(query: string, response: Result<seq<StockMedia>, string>) returns (requested: bool)
      modifies this
      ensures requested <==> query != ""
      ensures !requested ==> stockPhotos == old(stockPhotos) && isLoadingStock == old(isLoadingStock) && errorMessage == old(errorMessage)
      ensures requested ==> !isLoadingStock
      ensures requested && response.Success? ==> stockPhotos == response.value && errorMessage == old(errorMessage)
      ensures requested && response.Failure? ==> stockPhotos == old(stockPhotos) && errorMessage == Some(response.error)
      ensures uploads == old(uploads) && gifs == old(gifs)
      ensures isLoading == old(isLoading) && isLoadingGifs == old(isLoadingGifs)
    {
      if query == "" {
        return false;
      }
      requested := true;
      isLoadingStock := true;
      if response.Success? {
        stockPhotos := response.value;
      } else {
        errorMessage := Some(response.error);
      }
      isLoadingStock := false;
    }

    /** `searchGifs`: the same guard, on the GIF results. */
    method SearchGifs(query: string, response: Result<seq<GifMedia>, string>) returns (requested: bool)
      modifies this
      ensures requested <==> query != ""
      ensures !requested ==> gifs == old(gifs) && isLoadingGifs == old(isLoadingGifs) && errorMessage == old(errorMessage)
      ensures requested ==> !isLoadingGifs
      ensures requested && response.Success? ==> gifs == response.value && errorMessage == old(errorMessage)
      ensures requested && response.Failure? ==> gifs == old(gifs) && errorMessage == Some(response.error)
      ensures uploads == old(uploads) && stockPhotos == old(stockPhotos)
      ensures isLoading == old(isLoading) && isLoadingStock == old(isLoadingStock)
    {
      if query == "" {
        return false;
      }
      requested := true;
      isLoadingGifs := true;
      if response.Success? {
        gifs := response.value;
      } else {
        errorMessage := Some(response.error);
      }
      isLoadingGifs := false;
    }

    /** `downloadExternalMedia(url:)` followed, on success, by
        `loadUploads`; a failed download only sets the error. */
    method DownloadThenReload(url: string, failure: Option<string>, reload: Result<seq<Media>, string>)
      modifies this
      ensures failure.Some? ==> uploads == old(uploads) && errorMessage == failure && isLoading == old(isLoading)
      ensures failure.None? && reload.Success? ==> uploads == reload.value && errorMessage == old(errorMessage) && !isLoading
      ensures failure.None? && reload.Failure? ==> uploads == old(uploads) && errorMessage == Some(reload.error) && !isLoading
      ensures stockPhotos == old(stockPhotos) && gifs == old(gifs)
      ensures isLoadingStock == old(isLoadingStock) && isLoadingGifs == old(isLoadingGifs)
    {
      if failure.Some? {
        errorMessage := failure;
        return;
      }
      LoadUploads(reload);
    }

    /** `downloadStockPhoto`: a photo without a download URL is ignored;
        otherwise its download URL is fetched into the library. */
    method DownloadStockPhoto(photo: StockMedia, failure: Option<string>, reload: Result<seq<Media>, string>) returns (sent: Option<string>)
      modifies this
      ensures sent == photo.download
      ensures sent.None? ==> uploads == old(uploads) && errorMessage == old(errorMessage) && isLoading == old(isLoading)
      ensures sent.Some? && failure.Some? ==> uploads == old(uploads) && errorMessage == failure && isLoading == old(isLoading)
      ensures sent.Some? && failure.None? && reload.Success? ==> uploads == reload.value && errorMessage == old(errorMessage)
      ensures sent.Some? && failure.None? && reload.Failure? ==> uploads == old(uploads) && errorMessage == Some(reload.error)
      ensures sent.Some? && failure.None? ==> !isLoading
      ensures stockPhotos == old(stockPhotos) && gifs == old(gifs)
      ensures isLoadingStock == old(isLoadingStock) && isLoadingGifs == old(isLoadingGifs)
    {
      sent := photo.download;
      if sent.None? {
        return;
      }
      DownloadThenReload(sent.value, failure, reload);
    }

    /** `downloadGif`: the GIF's own URL is always fetched. */
    method DownloadGif(gif: GifMedia, failure: Option<string>, reload: Result<seq<Media>, string>) returns (sent: string)
      modifies this
      ensures sent == gif.url
      ensures failure.Some? ==> uploads == old(uploads) && errorMessage == failure && isLoading == old(isLoading)
      ensures failure.None? && reload.Success? ==> uploads == reload.value && errorMessage == old(errorMessage)
      ensures failure.None? && reload.Failure? ==> uploads == old(uploads) && errorMessage == Some(reload.error)
      ensures failure.None? ==> !isLoading
      ensures stockPhotos == old(stockPhotos) && gifs == old(gifs)
      ensures isLoadingStock == old(isLoadingStock) && isLoadingGifs == old(isLoadingGifs)
    {
      sent := gif.url;
      DownloadThenReload(sent, failure, reload);
    }

    /** `deleteSelected`: when the server accepts the delete, every upload
        whose id was sent leaves the list and the rest keep their order;
        when it fails, the list is kept and the error shown. */
    method DeleteSelected(ids: set<int>, failure: Option<string>)
      modifies this
      ensures failure.None? ==> uploads == RemoveAll(old(uploads), (m: Media) => m.id in ids) && errorMessage == old(errorMessage)
      ensures failure.None? ==> forall m :: m in uploads <==> m in old(uploads) && m.id !in ids
      ensures failure.Some? ==> uploads == old(uploads) && errorMessage == failure
      ensures stockPhotos == old(stockPhotos) && gifs == old(gifs)
      ensures isLoading == old(isLoading) && isLoadingStock == old(isLoadingStock) && isLoadingGifs == old(isLoadingGifs)
    {
      if failure.Some? {
        errorMessage := failure;
        return;
      }
      uploads := RemoveAll(uploads, (m: Media) => m.id in ids);
    }
  }

  datatype MediaTab = Uploads | Stock | Gifs

  /** The library screen's own state around its view model. */
  class MediaLibraryScreen {
    const viewModel: MediaLibraryViewModel
    var selectedTab: MediaTab
    var searchText: string
    var selectedItems: set<int>

    constructor()
      ensures fresh(viewModel) && viewModel.uploads == []
      ensures selectedTab == Uploads && searchText == "" && selectedItems == {}
    {
      viewModel := new MediaLibraryViewModel();
      selectedTab := Uploads;
      searchText := "";
      selectedItems := {};
    }

    /** Tapping an upload in the grid. */
    method ToggleSelection(id: int)
      modifies this
      ensures selectedItems == ToggleId(old(selectedItems), id)
      ensures selectedTab == old(selectedTab) && searchText == old(searchText)
    {
      selectedItems := ToggleId(selectedItems, id);
    }

    /** The toolbar's delete button, shown on the uploads tab while
        something is selected: the selected ids are deleted and the
        selection cleared, whatever the outcome of the delete. */
    method DeleteTapped(failure: Option<string>)
      requires selectedTab == Uploads && selectedItems != {}
      modifies this, viewModel
      ensures selectedItems == {}
      ensures failure.None? ==> viewModel.uploads == RemoveAll(old(viewModel.uploads), (m: Media) => m.id in old(selectedItems))
      ensures failure.Some? ==> viewModel.uploads == old(viewModel.uploads) && viewModel.errorMessage == failure
      ensures selectedTab == old(selectedTab) && searchText == old(searchText)
    {
      viewModel.DeleteSelected(selectedItems, failure);
      selectedItems := {};
    }

    /** `performSearch`: the field searches the tab it is shown on; the
        uploads tab has no search. */
    method PerformSearch(stock: Result<seq<StockMedia>, string>, found: Result<seq<GifMedia>, string>) returns (requested: bool)
      modifies viewModel
      ensures requested <==> selectedTab != Uploads && searchText != ""
      ensures selectedTab == Stock && requested && stock.Success? ==> viewModel.stockPhotos == stock.value
      ensures selectedTab == Gifs && requested && found.Success? ==> viewModel.gifs == found.value
      ensures selectedTab != Stock ==> viewModel.stockPhotos == old(viewModel.stockPhotos)
      ensures selectedTab != Gifs ==> viewModel.gifs == old(viewModel.gifs)
      ensures viewModel.uploads == old(viewModel.uploads)
    {
      match selectedTab
      case Uploads => requested := false;
      case Stock => requested := viewModel.SearchStock(searchText, stock);
      case Gifs => requested := viewModel.SearchGifs(searchText, found);
    }
  }

  /** `MediaPickerView`: a selection of upload ids over its own view
      model, handed back to the composer on "Done". */
  class MediaPicker {
    const viewModel: MediaLibraryViewModel
    var localSelection: set<int>

    constructor()
      ensures fresh(viewModel) && viewModel.uploads == [] && localSelection == {}
    {
      viewModel := new MediaLibraryViewModel();
      localSelection := {};
    }

    /** The sheet's `task`: load the uploads, then select the ids of the
        media the post already has. */
    method Appear(selectedMedia: seq<Media>, response: Result<seq<Media>, string>)
      modifies this, viewModel
      ensures localSelection == IdSet(selectedMedia, MediaId)
      ensures response.Success? ==> viewModel.uploads == response.value
      ensures response.Failure? ==> viewModel.uploads == old(viewModel.uploads)
    {
      viewModel.LoadUploads(response);
      localSelection := IdSet(selectedMedia, MediaId);
    }

    method ToggleSelection(m: Media)
      modifies this
      ensures localSelection == ToggleId(old(localSelection), m.id)
    {
      localSelection := ToggleId(localSelection, m.id);
    }

    /** "Done": `None` while the button is disabled, otherwise the uploads
        that are selected, in upload order. */
    method Done() returns (selectedMedia: Option<seq<Media>>)
      ensures selectedMedia.None? <==> !DoneEnabled(localSelection)
      ensures selectedMedia.Some? ==> selectedMedia.value == PickSelected(viewModel.uploads, localSelection)
      ensures selectedMedia.Some? ==> forall m :: m in selectedMedia.value <==> m in viewModel.uploads && m.id in localSelection
    {
      if !DoneEnabled(localSelection) {
        return None;
      }
      selectedMedia := Some(PickSelected(viewModel.uploads, localSelection));
    }
  }
}
