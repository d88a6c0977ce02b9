# Kitsu link history: a Dafny model

Kitsu is a browser front end for a URL-shortening service. The user submits a long URL. The
service returns a record with a short code. The page keeps a history of the created records in
local storage, and each record is shown as a card that can be copied, edited, deleted or asked for
its access count. This project models the client-side logic behind that:

- the history list held by the application root, and its upsert, delete and dismiss operations;
- the initial load from the `shortHistory` storage key, and the write-back after every change;
- the validation ladder that the create form and the edit card each run before any request:
  trim, empty, whitespace, URL parse, then protocol;
- how each remote call's reply is classified: create, the unused `useApi.del`, the panel's delete,
  update and stats;
- the edit state machine of a card, and the rewrite of the stored list after a successful edit;
- the short-link string and the base address.

Modules follow the source files. `Records` holds the link record and `Storage` the storage key.
`Validation` is the ladder shared by both components. `Remote` holds the request and reply shapes
and `useApi`. `History` is `App.jsx`, `Shortener` is `ShortenerForm.jsx` and `HistoryView` is
`HistoryList.jsx`. State that the source keeps in React state cells is a class with fields:
`App`, `ShortenerForm`, `HistoryList` and `ShortUrlCard`; the shared `localStorage` key is the class
`LocalStore`. The list transforms are
pure functions, with lemmas about them.

Everything outside the page is a parameter:
- the URL parser (the WHATWG URL Standard's basic URL parser, section 4.4 "URL parsing") is
  `parse: string -> Option<string>`. It returns the protocol when the parser accepts the string
  and `None` when parsing throws;
- each network reply is a `Reply`, supplied by the caller: a status with a decoded body, or
  `Failed(message)` when the request or the JSON decoding threw;
- the clock is a `now` string;
- the build's `VITE_API_URL` is an `Option<string>`.

Behaviour of the code worth knowing:
- An accepted URL is sent as the trimmed input, not as the parser's normalised form
  (`CheckUrl`, `HandleSubmit`, `UpdateItem`).
- `useApi.del` accepts every ok status, not only 204. The create form never calls it. The
  panel's own delete accepts exactly 204 (`Del`, `DeleteRulesDiffer`).
- An edit is written to local storage only. It never reaches the in-memory history, because
  `onUpdate` is received but never called. The next write-back of the history therefore
  overwrites the edit (`UpdateItem`, `WriteBackDropsEdit`, `EditLostOnNextWriteBack`).
  So memory and storage are not always equal after an operation.
- A fetched access count is shown on the card only and never persisted (`FetchStats`).

## Model

| member | source | states |
|---|---|---|
| `Storage.Parse` | src/App.jsx:12 | reading the key gives the empty list when it is missing, the stored list when it holds one, and fails exactly when its text does not parse |
| `Storage.LocalStore.constructor` | src/App.jsx:12 | the one storage object, which the root and the panel both read and write, starts with the given contents of the key |
| `Storage.Load` | src/App.jsx:10-14 | the initial history is the stored list when the key holds one; it is empty when the key is missing or its contents do not parse |
| `History.WithoutCode` | src/App.jsx:29 | the result holds no record with the code; a list without the code comes back unchanged; the result is never longer than the input |
| `History.WithoutCodeMembers` | src/App.jsx:29 | a record is kept exactly when it was in the list and carries a different code |
| `History.WithoutCodeCounts` | src/App.jsx:29 | every copy of a record with the code is dropped; every other record keeps its number of copies |
| `History.WithoutCodeKeepsOrder` | src/App.jsx:29 | the kept records appear in their original relative order (the result is a subsequence of the input) |
| `History.WithoutCodeAppend` | src/App.jsx:29 | filtering a concatenation is the concatenation of the filtered parts, so each record is kept or dropped on its own |
| `History.WithoutCodeIdempotent` | src/App.jsx:29 | removing a code twice gives the same list as removing it once |
| `History.WithoutCodeKeepsUniqueness` | src/App.jsx:29 | a history with unique short codes still has unique codes after a removal |
| `History.CountAbsent` | src/App.jsx:22 | a code that no record carries is counted zero times |
| `History.UniqueCodesPairwise` | src/App.jsx:22 | the uniqueness invariant holds exactly when any two positions of the history carry different codes |
| `History.Upsert` | src/App.jsx:22 | the added record is first; exactly one record carries its code, even if the old list held several; the rest hold every old record with another code as often as the old list did, and none with the added code; unique codes stay unique |
| `History.UpsertIdempotent` | src/App.jsx:22 | adding the same record twice gives the same history as adding it once |
| `History.UpsertKeepsOrder` | src/App.jsx:22 | after the added record, the other records keep their previous relative order |
| `History.HighlightAfterRemove` | src/App.jsx:30 | the highlight is cleared exactly when it carries the removed code; otherwise it is unchanged |
| `History.App.constructor` | src/App.jsx:10-18 | the history is loaded from storage, nothing is highlighted, and the mount write-back stores the loaded list |
| `History.App.AddToHistory` | src/App.jsx:20-26 | the history becomes the upsert of the record, the record becomes the highlight, and storage holds the new history |
| `History.App.RemoveFromHistory` | src/App.jsx:28-31 | the history loses every record with the code, the highlight is cleared exactly when it carried the code, and storage holds the new history |
| `History.App.Dismiss` | src/components/ShortenerForm.jsx:152 | the highlight is cleared; the history and storage are untouched |
| `Validation.IsWhitespace` | src/components/ShortenerForm.jsx:40 | space, tab, line feed and carriage return are whitespace; digits, ASCII letters, `:`, `/` and `.` are not; every whitespace code point is at most U+FEFF |
| `Validation.HasWhitespace` | src/components/ShortenerForm.jsx:49 | the `\s` test never holds of the empty string, and every non-empty all-whitespace string passes it |
| `Validation.LeadingWhitespace` | src/components/ShortenerForm.jsx:40 | the count covers only whitespace and stops at the first non-whitespace character |
| `Validation.TrailingWhitespace` | src/components/ShortenerForm.jsx:40 | the count covers only trailing whitespace and stops at the last non-whitespace character |
| `Validation.Trim` | src/components/ShortenerForm.jsx:40 | the result is the contiguous block of the input left between leading and trailing whitespace; only whitespace is dropped; its ends are not whitespace |
| `Validation.TrimEmpty` | src/components/ShortenerForm.jsx:43 | the trim is empty exactly when the input is all whitespace |
| `Validation.TrimIdempotent` | src/components/ShortenerForm.jsx:40 | trimming a trimmed string changes nothing |
| `Validation.TrimWithoutWhitespace` | src/components/ShortenerForm.jsx:40 | a string without whitespace is its own trim |
| `Validation.TrimSpans` | src/components/ShortenerForm.jsx:40 | trimming keeps everything between two non-whitespace characters |
| `Validation.IsWebProtocol` | src/components/ShortenerForm.jsx:57 | an accepted protocol starts with `http` and ends with `:`; `ftp:`, `file:` and `javascript:` are refused |
| `Validation.CheckUrl` | src/components/ShortenerForm.jsx:40-64 | accepts exactly the inputs whose trim is non-empty, has no whitespace, parses and has protocol `http:` or `https:`, returning the trimmed text; otherwise the first failing rule decides the rejection (empty, malformed, unsupported scheme) |
| `Validation.InteriorWhitespaceIsMalformed` | src/components/ShortenerForm.jsx:49-52 | whitespace between two non-whitespace characters is rejected as malformed, whatever the parser says |
| `Validation.AcceptedIsStable` | src/components/ShortenerForm.jsx:40-64 | validating an accepted value again accepts it unchanged |
| `Validation.FtpIsUnsupportedScheme` | src/components/ShortenerForm.jsx:57-60 | `ftp://x.com`, read by the parser as protocol `ftp:`, is rejected for its scheme |
| `Validation.NotAUrlIsMalformed` | src/components/ShortenerForm.jsx:49-52 | `not a url` is rejected as malformed before any request |
| `Remote.ApiBase` | src/components/ShortenerForm.jsx:7 | the base is the configured address unless that is missing or empty, in which case it is `http://localhost:8080`; it is never empty |
| `Remote.IsOk` | src/components/ShortenerForm.jsx:14 | `res.ok` holds exactly when the status's hundreds digit is 2 |
| `Remote.RecordAddress` | src/components/HistoryList.jsx:23 | a record's address starts with the base and ends with the code, with `/shorten/` between |
| `Remote.CreateRequest` | src/components/ShortenerForm.jsx:9-13 | the create call is a POST to the base followed by `/shorten`, carrying the URL |
| `Remote.DeleteRequest` | src/components/HistoryList.jsx:23 | the delete call is a DELETE without body to the record's address |
| `Remote.UpdateRequest` | src/components/HistoryList.jsx:61-65 | the update call is a PUT to the record's address, carrying the new URL |
| `Remote.StatsRequest` | src/components/HistoryList.jsx:94 | the stats call is a GET without body to the record's address followed by `/stats` |
| `Remote.RequestsAddressOneRecord` | src/components/HistoryList.jsx:23 | for one base, equal delete or stats targets mean equal codes; delete and update share the target and differ as requests |
| `Remote.ShortLink` | src/components/ShortenerForm.jsx:93 | the link is the base, then `/shorten/r/`, then the code |
| `Remote.ShortLinkInjective` | src/components/HistoryList.jsx:161 | for one base, different codes give different short links |
| `Remote.Shorten` | src/components/ShortenerForm.jsx:8-16 | the create call yields the service's record exactly on an ok status; a non-ok status throws "Network response was not ok"; a thrown error keeps its message |
| `Remote.Del` | src/components/ShortenerForm.jsx:17-22 | the delete helper succeeds exactly on the ok statuses (204 included) and throws "Delete failed" on the others |
| `Shortener.FormValidate` | src/components/ShortenerForm.jsx:40-64 | the form's ladder is the shared ladder with the form's three messages |
| `Shortener.ErrorText` | src/components/ShortenerForm.jsx:72 | a failed create shows the error's message, or "Network error" when it is empty |
| `Shortener.RedirectUrl` | src/components/ShortenerForm.jsx:93 | the highlighted link is the record's short link, and empty exactly when nothing is highlighted |
| `Shortener.ShortenerForm.constructor` | src/components/ShortenerForm.jsx:28-31 | the form starts with an empty input, no error and not loading; its base is `ApiBase` of the configured address |
| `Shortener.ShortenerForm.Type` | src/components/ShortenerForm.jsx:106 | typing sets the input text |
| `Shortener.ShortenerForm.Clear` | src/components/ShortenerForm.jsx:116 | Clear empties the input |
| `Shortener.ShortenerForm.HandleSubmit` | src/components/ShortenerForm.jsx:36-76 | a rejected input shows the rule's message with no request and no change to the history; an accepted one is posted as the trimmed text; on success the record is upserted, highlighted and stored, and the input is cleared; on failure the error is shown and the history is untouched; loading is false after a request |
| `HistoryView.CardValidate` | src/components/HistoryList.jsx:35-57 | the card's ladder is the shared ladder with the card's three messages |
| `HistoryView.CallSitesAgree` | src/components/HistoryList.jsx:35-57 | both copies of the ladder accept the same inputs with the same value; they show the same message for every rejection except the scheme one, whose wording differs |
| `HistoryView.DeleteAccepted` | src/components/HistoryList.jsx:24 | the panel's delete succeeds exactly on a reply with status 204, which is an ok status |
| `HistoryView.DeleteRulesDiffer` | src/components/HistoryList.jsx:24 | every reply the panel accepts (204) is accepted by the delete helper, but status 200 is accepted by the helper and refused by the panel |
| `HistoryView.Stamp` | src/components/HistoryList.jsx:71 | the edit's timestamp is the service's value when present and non-empty, and the current time otherwise |
| `HistoryView.InitialUpdatedAt` | src/components/HistoryList.jsx:146 | a card shows no timestamp when the record has none or an empty one, and the record's otherwise |
| `HistoryView.InitialAccessCount` | src/components/HistoryList.jsx:147 | a card shows no count when the record has none or a zero one, and the record's otherwise |
| `HistoryView.RewriteStored` | src/components/HistoryList.jsx:77 | the stored list keeps its length, order, codes, creation times and counts; records with the edited code get the new URL and timestamp; the others are untouched |
| `HistoryView.StoredAfterUpdate` | src/components/HistoryList.jsx:75-81 | a missing key becomes the stored empty list, unparseable contents are left as they are, and a stored list is rewritten |
| `HistoryView.LastUpdateWins` | src/components/HistoryList.jsx:77 | of two edits of the same record, the later one alone decides the stored list |
| `HistoryView.RewriteKeepsUniqueness` | src/components/HistoryList.jsx:77 | an edit keeps the stored short codes unique |
| `HistoryView.RewriteAbsentCode` | src/components/HistoryList.jsx:77 | an edit of a code the list does not hold leaves it unchanged |
| `HistoryView.WriteBackDropsEdit` | src/App.jsx:17 | an edit puts the new URL into the stored record at its position; after a create, every record written back for that code has the in-memory URL, which differs from the edit's |
| `HistoryView.ShortUrlCard.constructor` | src/components/HistoryList.jsx:143-147 | a card starts out of edit mode, showing and holding the record's URL, with its initial timestamp and count |
| `HistoryView.ShortUrlCard.Edit` | src/components/HistoryList.jsx:202 | Edit enters edit mode |
| `HistoryView.ShortUrlCard.Type` | src/components/HistoryList.jsx:190 | typing sets the edited URL |
| `HistoryView.ShortUrlCard.Cancel` | src/components/HistoryList.jsx:208 | Cancel leaves edit mode and restores the edited URL to the shown one |
| `HistoryView.HistoryList.constructor` | src/components/HistoryList.jsx:5-6 | the panel starts with no toast; its base is `ApiBase` of the configured address |
| `HistoryView.HistoryList.DelItem` | src/components/HistoryList.jsx:21-31 | the DELETE request is sent; on status 204 exactly, the record leaves the history and the highlight, storage is updated and "Deleted" is shown; otherwise nothing changes and "Error deleting" is shown |
| `HistoryView.HistoryList.UpdateItem` | src/components/HistoryList.jsx:33-88 | called on a card in edit mode, it validates the card's typed URL; a rejected input shows the rule's message and sends nothing; an accepted one is sent as the trimmed text; on an ok reply the card shows the service's URL and timestamp and leaves edit mode, storage is rewritten and "Updated" is shown; on failure card and storage are unchanged and "Error updating" is shown; the in-memory history never changes |
| `HistoryView.HistoryList.FetchStats` | src/components/HistoryList.jsx:92-103 | on an ok reply the card shows the service's count and "Stats updated"; otherwise the count is unchanged and "Error fetching stats" is shown; storage is never touched |
| `HistoryView.EditLostOnNextWriteBack` | src/components/HistoryList.jsx:74-78 | entering edit mode, typing a valid URL, a save the service accepts and then a create: right after the save storage holds the edit (`stored`); after the create it holds the in-memory history plus the created record, without the edit |

## Left out

- Network transport, status text and JSON decoding: each reply is supplied already decoded, or as a
  failure carrying the thrown error's message.
- JSON values of an unexpected shape: a stored value that parses to something other than a list of
  records, a record without `shortCode` or `url`, a stats reply without `accessCount`. The model
  assumes well-formed values.
- Serialisation: local storage is a slot holding a list, unparseable text, or nothing. A failing
  `setItem` (quota, for one) is not modelled.
- The WHATWG URL parser itself: it is the `parse` parameter. The model does not capture which
  strings it accepts or which protocol it reports.
- `HistoryView.HistoryList.UpdateItem`: reads the clock once (`now`). The source reads it twice, once
  for the card and once for storage, and the two readings may differ.
- Inputs that are `null` or `undefined` (the `|| ''` fallback): the model's inputs are strings.
- Toast timers (`showToast`, `toastDuration`): a toast is modelled as the last message set, and its
  automatic clearing is not modelled.
- Clipboard copy (`copy`, `copyToClipboard`, `fallbackCopy`), input focus on mount,
  `console.error`, React rendering and JSX markup.
- React reconciliation: a card's state is keyed by short code and survives when its record is
  replaced at the front of the history. The model builds cards explicitly.
- Overlapping requests and their ordering: each operation is one atomic step taken after its reply
  has arrived. `aria-disabled` does not actually block a second submission; that is not modelled.
- `src/components/Blobs.jsx`, `src/components/Logo.jsx` and `tailwind.config.cjs`: decoration,
  animation and build configuration, with no behaviour in the model's scope.
