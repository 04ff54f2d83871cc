/** The new-tab page's session: the bookmark list and the settings, loaded
    once from the extension's local store and written back after every change,
    together with the add-bookmark dialog's image and missing-image warning. */
module NewTab {
  import opened Wrappers
  import opened JsString
  import opened Images

  /** One grid entry; `image` is an encoded thumbnail (a data URL) or null. */
  datatype Bookmark = Bookmark(url: string, title: string, image: Option<string>)

  /** What `saveData` hands to the store: both top-level keys. */
  datatype Snapshot = Snapshot(bookmarks: seq<Bookmark>, columns: int)

  /** What `browser.storage.local.get` returned; a missing key is None. */
  datatype StoredSettings = StoredSettings(columns: Option<int>)
  datatype StoredData = StoredData(bookmarks: Option<seq<Bookmark>>, settings: Option<StoredSettings>)

  /** The record a save of `snap` leaves in the store. */
  function Record(snap: Snapshot): StoredData {
    StoredData(Some(snap.bookmarks), Some(StoredSettings(Some(snap.columns))))
  }

  const DefaultColumns := 5
  const MinColumns := 1
  const MaxColumns := 30

  /** JavaScript truthiness of the image value: null and the empty string are falsy. */
  predicate Truthy(image: Option<string>) {
    image.Some? && image.value != ""
  }

  /** Where `Array.prototype.splice` starts for an index argument: negative
      indices count from the end, and both ends clamp to the array. */
  function SpliceStart(len: nat, index: int): (k: nat)
    ensures k <= len
    ensures 0 <= index <= len ==> k == index
    ensures index < 0 && 0 <= len + index ==> k == len + index
    ensures len + index < 0 ==> k == 0
    ensures len < index ==> k == len
  {
    if index < 0 then (if len + index < 0 then 0 else len + index)
    else if index > len then len
    else index
  }

  /** `s.splice(index, 1)`: removes the one element at the start position, if
      there is one, keeping the order of the rest. */
  function SpliceOne<T>(s: seq<T>, index: int): (r: seq<T>)
    ensures 0 <= index < |s| ==> r == s[..index] + s[index + 1..]
    ensures index >= |s| ==> r == s
    ensures |r| == if index < |s| && s != [] then |s| - 1 else |s|
  {
    var k := SpliceStart(|s|, index);
    if k < |s| then s[..k] + s[k + 1..] else s
  }

  /** Deleting at a valid index removes exactly the element there: everything
      before it stays in place, everything after it moves down by one, and the
      removed element is the only thing the multiset loses. */
  lemma SpliceOneRemoves<T>(s: seq<T>, i: nat)
    requires i < |s|
    ensures |SpliceOne(s, i)| == |s| - 1
    ensures forall j :: 0 <= j < i ==> SpliceOne(s, i)[j] == s[j]
    ensures forall j :: i <= j < |s| - 1 ==> SpliceOne(s, i)[j] == s[j + 1]
    ensures multiset(SpliceOne(s, i)) + multiset{s[i]} == multiset(s)
  {
    assert s == s[..i] + [s[i]] + s[i + 1..];
  }

  /** The bookmark-form title: the trimmed title input when not blank;
      otherwise the hostname of the URL, or the URL itself when it does not
      parse (`hostnameOf` None stands for `new URL(url)` throwing). */
  function FallbackTitle(title: string, hostnameOf: Option<string>, url: string): (r: string)
    ensures title != "" ==> r == title
    ensures title == "" && hostnameOf.Some? ==> r == hostnameOf.value
    ensures title == "" && hostnameOf.None? ==> r == url
  {
    if title != "" then title
    else
      match hostnameOf
      case Some(host) => host
      case None => url
  }

  /** The text of an image-less card: the title's first two characters,
      upper-cased (`substring(0, 2).toUpperCase()`). */
  function Placeholder(title: string): (r: string)
    ensures |r| == if |title| < 2 then |title| else 2
    ensures forall k :: 0 <= k < |r| ==> r[k] == UpperChar(title[k])
    ensures forall k :: 0 <= k < |r| ==> !IsLowerAscii(r[k])
  {
    ToUpper(title[..if |title| < 2 then |title| else 2])
  }

  /** A placeholder is its own placeholder. */
  lemma PlaceholderIdempotent(title: string)
    ensures Placeholder(Placeholder(title)) == Placeholder(title)
  {
    var p := Placeholder(title);
    assert forall k :: 0 <= k < |p| ==> UpperChar(p[k]) == p[k];
  }

  /** The page's global state: the `bookmarks` and `settings` variables, the
      add dialog's `currentBase64Image` and `ignoreImageWarning`, whether the
      missing-image warning is shown, and every snapshot saved so far. */
  class Session {
    var bookmarks: seq<Bookmark>
    var columns: int
    var currentImage: Option<string>
    var ignoreImageWarning: bool
    var warningVisible: bool
    var saves: seq<Snapshot>

    /** The missing-image warning is only ever shown while the dialog has no
        image and the next submit is armed to go through without one. */
    ghost predicate Valid()
      reads this
    {
      warningVisible ==> ignoreImageWarning && !Truthy(currentImage)
    }

    /** The state `saveData` writes. */
    function Current(): Snapshot
      reads this
    {
      Snapshot(bookmarks, columns)
    }

    /** The script's initial values, before anything is loaded. */
    constructor ()
      ensures Valid()
      ensures bookmarks == [] && columns == DefaultColumns
      ensures currentImage == None && !ignoreImageWarning && !warningVisible
      ensures saves == []
    {
      bookmarks := [];
      columns := DefaultColumns;
      currentImage := None;
      ignoreImageWarning := false;
      warningVisible := false;
      saves := [];
    }

    /** `loadData`: `stored` is what the store returned, None when reading it
        threw. Stored bookmarks replace the list; a stored `columns` overrides
        the current one, unchecked; whatever is missing keeps its value. */
    method Load(stored: Option<StoredData>)
      requires Valid()
      modifies this`bookmarks, this`columns
      ensures Valid()
      ensures bookmarks ==
        if stored.Some? && stored.value.bookmarks.Some? then stored.value.bookmarks.value
        else old(bookmarks)
      ensures columns ==
        if stored.Some? && stored.value.settings.Some? && stored.value.settings.value.columns.Some?
        then stored.value.settings.value.columns.value
        else old(columns)
    {
      if stored.Some? {
        var data := stored.value;
        if data.bookmarks.Some? {
          bookmarks := data.bookmarks.value;
        }
        if data.settings.Some? {
          columns := data.settings.value.columns.GetOr(columns);
        }
      }
    }

    /** `saveData`: hands the current bookmarks and settings to the store. */
    method Save()
      modifies this`saves
      ensures saves == old(saves) + [Current()]
    {
      saves := saves + [Snapshot(bookmarks, columns)];
    }

    /** `deleteBookmark(index)`, with `confirmed` the answer to `confirm()`:
        when confirmed, `splice(index, 1)` and a save; otherwise nothing. */
    method DeleteBookmark(index: int, confirmed: bool)
      requires Valid()
      modifies this`bookmarks, this`saves
      ensures Valid()
      ensures bookmarks == if confirmed then SpliceOne(old(bookmarks), index) else old(bookmarks)
      ensures saves == if confirmed then old(saves) + [Current()] else old(saves)
    {
      if confirmed {
        bookmarks := SpliceOne(bookmarks, index);
        Save();
      }
    }

    /** The settings form's submit handler, with `parsed` the value of
        `parseInt(columnsInput.value, 10)` (None for NaN). A value in range is
        taken and saved and the dialog closes; anything else changes nothing
        and leaves the dialog open. */
    method SubmitSettings(parsed: Option<int>) returns (closed: bool)
      requires Valid()
      modifies this`columns, this`saves
      ensures Valid()
      ensures closed <==> parsed.Some? && MinColumns <= parsed.value <= MaxColumns
      ensures columns == if closed then parsed.value else old(columns)
      ensures saves == if closed then old(saves) + [Current()] else old(saves)
    {
      closed := false;
      if parsed.Some? {
        var cols := parsed.value;
        if cols >= MinColumns && cols <= MaxColumns {
          columns := cols;
          Save();
          closed := true;
        }
      }
    }

    /** `setPreviewImage`: the fetched image becomes the dialog's image and the
        missing-image warning is hidden and disarmed. */
    method SetPreviewImage(base64: string)
      modifies this`currentImage, this`warningVisible, this`ignoreImageWarning
      ensures Valid()
      ensures currentImage == Some(base64) && !warningVisible && !ignoreImageWarning
    {
      currentImage := Some(base64);
      warningVisible := false;
      ignoreImageWarning := false;
    }

    /** `setPreviewError`: the dialog no longer has an image; the warning's
        state is left as it was. */
    method SetPreviewError()
      requires Valid()
      modifies this`currentImage
      ensures Valid()
      ensures currentImage == None
    {
      currentImage := None;
    }

    /** `setPreviewLoading`: starting a load hides the warning but leaves it
        armed; ending one changes nothing. */
    method SetPreviewLoading(isLoading: bool)
      requires Valid()
      modifies this`warningVisible
      ensures Valid()
      ensures warningVisible == if isLoading then false else old(warningVisible)
    {
      if isLoading {
        warningVisible := false;
      }
    }

    /** `resetAddForm`: no image, warning hidden and disarmed. */
    method ResetAddForm()
      modifies this`currentImage, this`warningVisible, this`ignoreImageWarning
      ensures Valid()
      ensures currentImage == None && !warningVisible && !ignoreImageWarning
    {
      currentImage := None;
      warningVisible := false;
      ignoreImageWarning := false;
    }

    /** The bookmark form's submit handler, with `hostnameOf` the outcome of
        `new URL(url).hostname` for the trimmed URL. Without an image, the
        first submit only shows and arms the warning; otherwise the bookmark
        is appended with the dialog's image, saved, and the form reset. */
    method SubmitBookmark(urlInput: string, titleInput: string, hostnameOf: Option<string>)
      returns (added: bool)
      requires Valid()
      modifies this`bookmarks, this`saves, this`currentImage, this`warningVisible, this`ignoreImageWarning
      ensures Valid()
      ensures added <==> Truthy(old(currentImage)) || old(ignoreImageWarning)
      ensures added ==>
        bookmarks == old(bookmarks) +
          [Bookmark(Trim(urlInput), FallbackTitle(Trim(titleInput), hostnameOf, Trim(urlInput)), old(currentImage))]
        && saves == old(saves) + [Current()]
        && currentImage == None && !warningVisible && !ignoreImageWarning
      ensures !added ==>
        bookmarks == old(bookmarks) && saves == old(saves) && currentImage == old(currentImage)
        && warningVisible && ignoreImageWarning
    {
      var url := Trim(urlInput);
      var title := FallbackTitle(Trim(titleInput), hostnameOf, url);
      if !Truthy(currentImage) && !ignoreImageWarning {
        warningVisible := true;
        ignoreImageWarning := true;
        added := false;
        return;
      }
      bookmarks := bookmarks + [Bookmark(url, title, currentImage)];
      Save();
      ResetAddForm();
      added := true;
    }

    /** The fetch-image button's click handler. `hostnameOf` is the outcome of
        parsing the trimmed site URL and `fetchAndResize` stands for
        `fetchAndResizeImage` (fetch, decode, resize, re-encode; None on any
        failure). Returns the URL that was fetched, if any. */
    method FetchImage(imageUrlInput: string, siteUrlInput: string, hostnameOf: Option<string>,
                      fetchAndResize: string -> Option<string>)
      returns (fetched: Option<string>)
      requires Valid()
      modifies this`currentImage, this`warningVisible, this`ignoreImageWarning
      ensures Valid()
      ensures ImageSource(imageUrlInput, siteUrlInput).NoRequest? ==>
        fetched == None && currentImage == old(currentImage)
        && warningVisible == old(warningVisible) && ignoreImageWarning == old(ignoreImageWarning)
      ensures ImageSource(imageUrlInput, siteUrlInput).Direct? ==> fetched == Some(Trim(imageUrlInput))
      ensures ImageSource(imageUrlInput, siteUrlInput).SiteIcon? ==>
        fetched == SiteIconQuery(Trim(siteUrlInput), hostnameOf)
      ensures !ImageSource(imageUrlInput, siteUrlInput).NoRequest? ==>
        !warningVisible &&
        if fetched.Some? && Truthy(fetchAndResize(fetched.value))
        then currentImage == fetchAndResize(fetched.value) && !ignoreImageWarning
        else currentImage == None && ignoreImageWarning == old(ignoreImageWarning)
    {
      var source := ImageSource(imageUrlInput, siteUrlInput);
      if source.NoRequest? {
        fetched := None;
        return;
      }
      SetPreviewLoading(true);
      var base64: Option<string> := None;
      if source.Direct? {
        fetched := Some(source.imageUrl);
        base64 := fetchAndResize(source.imageUrl);
      } else {
        fetched := SiteIconQuery(source.siteUrl, hostnameOf);
        if fetched.Some? {
          base64 := fetchAndResize(fetched.value);
        }
      }
      SetPreviewLoading(false);
      if Truthy(base64) {
        SetPreviewImage(base64.value);
      } else {
        SetPreviewError();
      }
    }
  }

  /** `init` as far as state goes: the script's initial values, then `loadData`.
      Absent settings keep the default of five columns. */
  method Start(stored: Option<StoredData>) returns (s: Session)
    ensures fresh(s) && s.Valid()
    ensures s.bookmarks ==
      if stored.Some? && stored.value.bookmarks.Some? then stored.value.bookmarks.value else []
    ensures s.columns ==
      if stored.Some? && stored.value.settings.Some? && stored.value.settings.value.columns.Some?
      then stored.value.settings.value.columns.value
      else DefaultColumns
    ensures s.currentImage == None && !s.ignoreImageWarning && !s.warningVisible && s.saves == []
  {
    s := new Session();
    s.Load(stored);
  }

  /** Whatever a session saved last is what the next session starts with. */
  method Restart(s: Session) returns (next: Session)
    requires s.saves != []
    ensures fresh(next)
    ensures next.Current() == s.saves[|s.saves| - 1]
  {
    next := Start(Some(Record(s.saves[|s.saves| - 1])));
  }

  /** The two-step missing-image confirmation: with no image and the warning
      not yet armed, the first submit only shows the warning, and the second,
      with the same inputs, appends the bookmark with a null image. */
  method SubmitWithoutImage(s: Session, urlInput: string, titleInput: string, hostnameOf: Option<string>)
    returns (first: bool, second: bool)
    requires s.Valid() && s.currentImage == None && !s.ignoreImageWarning
    modifies s
    ensures !first && second
    ensures s.bookmarks == old(s.bookmarks) +
      [Bookmark(Trim(urlInput), FallbackTitle(Trim(titleInput), hostnameOf, Trim(urlInput)), None)]
    ensures s.saves == old(s.saves) + [s.Current()]
    ensures s.Valid() && !s.warningVisible && !s.ignoreImageWarning
  {
    first := s.SubmitBookmark(urlInput, titleInput, hostnameOf);
    second := s.SubmitBookmark(urlInput, titleInput, hostnameOf);
  }
}
