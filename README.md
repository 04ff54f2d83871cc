# Bookmarks new-tab page: a Dafny model of its core logic

The page replaces the browser's new tab with a grid of bookmarked sites, each
with a thumbnail. Its script keeps two persistent records, the ordered
bookmark list and the settings (only `columns`, default 5). It reads them
once at start-up and writes both back after every change. Beside them it
keeps the add-bookmark dialog's state: the thumbnail fetched so far
(`currentBase64Image`) and a two-step "submit without an image?" warning.
The thumbnail comes from a direct image URL or from a favicon service. It is
scaled down so that neither side exceeds 600 pixels. A page title can be
scraped from the site's HTML.

The model has five modules:

- `Wrappers`: the `Option` type that stands for JavaScript's `null`.
- `JsString`: `String.prototype.trim` over ECMAScript's complete list of
  white-space and line-terminator characters, and `toUpperCase` for ASCII
  letters. `Trim` comes with a uniqueness lemma, so it is fixed independently
  of how it is computed.
- `TitleScan`: the regular expression `/<title>([^<]*)<\/title>/i` followed
  by `trim`, as a left-to-right scan. Its contract says which match wins and
  which captures give null.
- `Images`: the 600-pixel resize rule (a method, as in the script, where
  `width` and `height` are reassigned step by step), the favicon query URL
  and its inverse, and the fetch-image button's choice of source.
- `NewTab`: the `Session` class. Its fields are the script's global variables
  plus a log of every snapshot handed to the store. It has one method per
  handler. There are also pure helpers (`splice(index, 1)`, the title
  fallback, the card placeholder) and client methods for the properties that
  span several calls: start-up, save-then-restart, and the two-step warning.

`Session.Valid()` is the invariant every handler keeps. The warning is shown
only while the dialog has no truthy image and the next submit is armed to go
through without one.

Where the page's design description and the code differ, the model follows
the code:

- Settings are not range-checked on load. A stored `columns` outside 1..30 is
  taken as it is and saved again by the next add or delete. Only the settings
  form rejects out-of-range values.
- The title pattern is `[^<]*`, not a lazy "anything up to `</title>`". A
  title that contains a `<` never matches at that position.
- The title lookup does not check the HTTP status. An error page's `<title>`
  is used.
- A title fetched by the blur handler reaches a bookmark only by filling the
  title input. The submit handler's own fallback is: trimmed title input, then
  hostname, then the raw trimmed URL.

## Model

| member | source | states |
|---|---|---|
| `NewTab.Session.constructor` | script.js:1-4 | start-up values: no bookmarks, 5 columns, no dialog image, warning hidden and disarmed, nothing saved |
| `NewTab.Session.Load` | script.js:37-49 | stored bookmarks replace the list only when present; a stored `columns` overrides the current value with no range check; an absent key or a failed read keeps the current values |
| `NewTab.Start` | script.js:30-35 | start-up then load: absent settings keep the default of 5 columns, absent bookmarks give the empty list, a read error leaves all defaults |
| `NewTab.Session.Save` | script.js:51-60 | exactly one snapshot of (bookmarks, columns) is appended to what the store has been given |
| `NewTab.Restart` | script.js:37-56 | a new session that loads the last saved record starts with exactly the bookmarks and columns that were saved |
| `NewTab.SpliceStart` | script.js:129 | `splice`'s start position: negative indices count from the end, both ends clamp to the array |
| `NewTab.SpliceOne` | script.js:129 | a valid index removes exactly that element (`s[..i] + s[i+1..]`); an index past the end changes nothing; the length drops by one exactly when there is an element at the start position |
| `NewTab.SpliceOneRemoves` | script.js:129 | after removal at a valid index, elements before it stay in place, elements after it shift down by one, and only that element leaves the multiset |
| `NewTab.Session.DeleteBookmark` | script.js:127-133 | confirmed: the list becomes `splice(index, 1)` of the old one and is saved; not confirmed: nothing changes and nothing is saved |
| `NewTab.Session.SubmitSettings` | script.js:316-325 | the dialog closes, `columns` takes the parsed value and one save happens if and only if the value is a number in 1..30; otherwise nothing changes |
| `NewTab.FallbackTitle` | script.js:286-294 | a non-blank trimmed title wins; otherwise the URL's hostname; the raw URL only when parsing throws |
| `NewTab.Session.SubmitBookmark` | script.js:283-312 | adds exactly when the dialog has a truthy image or the warning is already armed; then exactly one bookmark (trimmed URL, fallback title, the dialog's image) is appended after the unchanged old list, saved, and the form reset; otherwise nothing but the warning changes: it is shown and armed |
| `NewTab.SubmitWithoutImage` | script.js:296-300 | with no image and the warning disarmed, the first submit adds nothing and the second appends the bookmark with a null image and saves once |
| `NewTab.Session.SetPreviewImage` | script.js:328-336 | the image becomes the dialog's image; the warning is hidden and disarmed |
| `NewTab.Session.SetPreviewError` | script.js:347-352 | the dialog loses its image; the warning's state is untouched |
| `NewTab.Session.SetPreviewLoading` | script.js:338-345 | starting a load hides the warning but leaves it armed; ending one changes nothing |
| `NewTab.Session.ResetAddForm` | script.js:359-368 | no image, warning hidden and disarmed |
| `NewTab.Session.FetchImage` | script.js:261-281 | blank inputs change nothing; otherwise the trimmed image URL or the favicon query is fetched; a truthy result becomes the dialog's image and disarms the warning; anything else clears the image; the warning ends hidden |
| `Images.ImageSource` | script.js:262-272 | a direct fetch exactly when the trimmed image URL is non-blank; a favicon fetch of the non-blank trimmed site URL otherwise; no fetch exactly when both are blank |
| `Images.ResizeDims` | script.js:164-181 | within 600 on both sides nothing changes; otherwise the larger side (the height on a tie) becomes 600 and the other is the floor of its proportional value; no side grows and none exceeds 600 |
| `Images.Scaled` | script.js:170 | the truncated scaled side `q` satisfies `q * big <= a * 600 < (q + 1) * big`, and is at most the side and at most 600 when `big` exceeds the cap |
| `Images.ScaledBounds` | script.js:168-178 | the exact quotient used for the shorter side is its floor value and never exceeds the original side or the cap |
| `Images.FaviconUrl` | script.js:195 | the query URL is the fixed service prefix, then the host name, then `&sz=128` |
| `Images.FaviconRoundTrip` | script.js:195 | the host name can be read back out of the query URL unchanged |
| `Images.FaviconUrlInjective` | script.js:195 | different host names give different query URLs |
| `Images.SiteIconQuery` | script.js:191-200 | a query (and so a fetch) happens exactly when the site URL is non-empty and parses; its domain parameter is exactly the parsed host name |
| `JsString.Trim` | script.js:285-286 | the input is a trimmable prefix, then the result, then a trimmable suffix, and the result neither starts nor ends with a trimmable character |
| `JsString.TrimUnique` | script.js:285-286 | any such split into padding around a core without trimmable ends has `Trim` as its core |
| `JsString.TrimKeepsOut` | script.js:209 | a character absent from the input is absent from its trimmed text |
| `JsString.TrimIdempotent` | script.js:209 | trimming a trimmed string changes nothing |
| `JsString.TrimAllTrimmable` | script.js:209 | a string of white space alone trims to the empty string |
| `JsString.ToUpper` | script.js:89 | same length; every ASCII lower-case letter is mapped to its upper case and nothing else changes |
| `NewTab.Placeholder` | script.js:89 | the first two characters of the title (all of it if shorter), upper-cased, with no lower-case ASCII letter left |
| `NewTab.PlaceholderIdempotent` | script.js:89 | the placeholder of a placeholder is the placeholder itself |
| `TitleScan.RunEnd` | script.js:207 | the greedy `[^<]*` run stops at the first `<` or at the end of the text, and contains no `<` |
| `TitleScan.Capture` | script.js:207 | the captured group contains no `<` |
| `TitleScan.RunUnique` | script.js:207 | any reading of `<title>`, a `<`-free run and `</title>` from a start position uses the same run, so backtracking cannot produce a different match |
| `TitleScan.FirstTitleFrom` | script.js:207 | the scan returns the leftmost start position where the pattern matches, or none when no position matches |
| `TitleScan.ExtractTitle` | script.js:207-210 | a title never contains `<` and never starts or ends with white space |
| `TitleScan.ExtractNoTitle` | script.js:207-210 | where the pattern matches at no position the title is null |
| `TitleScan.ExtractFirstTitle` | script.js:207-210 | the leftmost match decides: an empty capture gives null, any other capture its trimmed text |
| `TitleScan.BlankTitle` | script.js:208-209 | a non-empty capture made only of white space gives the empty string, not null |
| `TitleScan.MixedCaseTitle` | script.js:207-209 | `<TITLE> News </Title>` gives `News`: the tags match in any case and the text is trimmed |
| `TitleScan.PageTitle` | script.js:202-215 | an empty URL or a failed fetch gives null before any matching; otherwise the title extracted from the response text, whatever the HTTP status |

## Left out

- DOM construction and rendering are not modelled, because they are display side effects: card building in `renderGrid`, `applySettings`, the `visibilitychange` handler, preview element visibility and closing modals. Only the placeholder text and the dialog's open or closed outcome (the `closed` / `added` results) are kept.
- `browser.storage.local` get and set, `fetch`, `browser.search.search` and `handleSearch` are not modelled, because they are asynchronous foreign I/O. Stored data is an input record, a failed read is `None`, and saving is an appended snapshot. A failed write is not modelled.
- Image decoding, canvas drawing and `toDataURL('image/jpeg', 0.85)` are foreign. `fetchAndResizeImage` is a function parameter of `FetchImage`, and its result is an opaque string.
- URL parsing (`new URL(...).hostname`) is foreign. Its outcome is passed in as an `Option<string>`, with `None` when the constructor throws.
- `parseInt(columnsInput.value, 10)` is a built-in. Its outcome is passed in as an `Option<int>`, with `None` for NaN.
- ResizeDims: computes `height * (600 / width)` in exact arithmetic and then truncates. JavaScript's floating-point rounding of `600 / width` is not modelled, so a result that is mathematically an integer may truncate one lower in the browser. A scaled side can truncate to 0 (1000 × 1 gives 600 × 0).
- Trim, ToUpper and Placeholder: work on Unicode scalar values, not UTF-16 code units. `toUpperCase` maps ASCII letters only, so full Unicode case mapping is not modelled (for example `ß` becoming `SS`). `substring(0, 2)` splitting a surrogate pair is not modelled either.
- NewTab.Session.Load: stored values are typed (`columns` an integer, bookmarks well-formed). A stored value of another JSON type is not modelled.
- The `siteUrlInput` blur handler is not modelled as its own operation, because what it does is made of modelled parts (`SiteIconQuery`, `SetPreviewLoading`, `SetPreviewImage`, `PageTitle`). Its race with the fetch-image button, and stale async results overwriting `currentBase64Image`, are concurrency and are not modelled.
- `openAddModal` and the cancel buttons are `ResetAddForm` plus dialog display.
- The `confirm()` dialog becomes the boolean parameter of `DeleteBookmark`.
