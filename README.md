# VibeCreator core in Dafny

VibeCreator is a social-media scheduling system with two parts. One is a SwiftUI app for iOS and macOS, built on the `VibeCreatorKit` package. The other is a Laravel mobile API layered over Mixpost. This project models the logic beneath both parts' screens and controllers and proves properties about it.

- **Calendar.** The month and week grids of `CalendarViewModel`, the bucketing of posts into grid cells by effective date, and navigation between periods. Also the `Date` extensions they rest on: start and end of day, month and week, adding days and months, and weekday. On the server, the date window and post filter of `CalendarController`.
- **Posts.** The composer's selection toggles, its character limit and the request body it builds. The editor's change detection by id sets. The paginated list state machine. On the server, `PostsController` as operations on an in-memory table of posts: index filtering and paging, store and update validation, schedule, duplicate, destroy and owner-scoped bulk destroy.
- **Small tables and classifiers.** Post status codes, the provider capability table, MIME-type classification, the integer part of the hex-colour parser, the HTTP-status to `APIError` mapping, settings defaults and validation on both sides, health-status classification, and the report and dashboard aggregates.
- **Client state machines.** The `AuthManager` session over a key store, `ImageCache`, `APIConfiguration`, and the list edits the view models make on success or failure of their calls.

Each Swift view model and each server table that the source updates in place is a `class`. Its methods state their whole new state. Pure computations are functions, with lemmas relating them. Network, ORM and keychain calls are not executed: what such a call returned, or the error it raised, is an input to the method that makes it. Whether a string parses as a URL, names a time zone or is an e-mail address is a function parameter. So are the current instant and `Calendar.current.firstWeekday`.

Dates are proleptic-Gregorian civil dates in one fixed time zone. An instant is such a date plus the second of that day. Money-like amounts that PHP rounds with `round(x, 2)` are carried as whole hundredths.

Source paths in the table below are relative to the repository root.

## Model

A definition without a contract of its own, such as `PostsController.IndexQueryFrom`, `DashboardController.RecentPosts` or `ApiClient.MapError`, has no row. It is covered by the lemma rows that cite the same source lines and state its properties.

| member | source | states |
|---|---|---|
| ServerModels.Where | src/Http/Controllers/Api/Mobile/PostsController.php:26-54 | the rows a chain of `where` calls keeps are exactly the rows meeting every condition, and no more rows than the table has |
| ServerModels.WhereNarrows | src/Http/Controllers/Api/Mobile/PostsController.php:29-54 | one more `where` keeps exactly the earlier selection's rows that meet the new condition, as a sub-multiset |
| ServerModels.WhereIsFilter | src/Http/Controllers/Api/Mobile/PostsController.php:26-54 | conditions that hold exactly where a predicate does select the same rows, in table order, as filtering by the predicate |
| ServerModels.Get | src/Http/Controllers/Api/Mobile/CalendarController.php:56-57 | `get()` in one pass over the table returns exactly the rows meeting every condition, in table order |
| ServerModels.Filter | src/Http/Controllers/Api/Mobile/PostsController.php:182-184 | the reference selection: a row is kept exactly when it is in the table and passes the predicate |
| ServerModels.PostOrdersArePreorders | src/Http/Controllers/Api/Mobile/CalendarController.php:56 | `orderBy('scheduled_at')` (nulls first) and `latest()` are total preorders |
| Sorting.Insert | src/Http/Controllers/Api/Mobile/PostsController.php:57 | inserting keeps every element, plus the new one |
| Sorting.SortBy | src/Http/Controllers/Api/Mobile/PostsController.php:57 | the ordered result is a permutation of the input |
| Sorting.InsertSorted | src/Http/Controllers/Api/Mobile/PostsController.php:57 | inserting into an ordered list keeps it ordered under a total preorder |
| Sorting.SortBySorted | src/Http/Controllers/Api/Mobile/PostsController.php:57 | the ordered result is ordered and a permutation of the input |
| Pagination.LastPage | src/Http/Controllers/Api/Mobile/PostsController.php:58-65 | `last_page` is at least 1; for a positive page size it is the least page count whose pages hold every row, and for a negative size (which lists every row) it is 1 |
| Pagination.Page | src/Http/Controllers/Api/Mobile/PostsController.php:57-58 | for a positive size, page `p` holds the rows from index `(p-1)*perPage` on, at most `perPage` of them, as many as remain; a negative size lists every row |
| Pagination.MetaFor | src/Http/Controllers/Api/Mobile/PostsController.php:62-69 | `from`/`to` are null exactly on an empty page; otherwise they span exactly as many rows as the page holds, within the total for a positive size, and `last_page`, `per_page` and `total` agree with the rows |
| Pagination.MetaCountsPage | src/Http/Controllers/Api/Mobile/PostsController.php:58-69 | `from` is null exactly when the page is empty, and otherwise `from`..`to` counts exactly the rows on the page |
| Pagination.ResolveCurrentPage | src/Http/Controllers/Api/Mobile/PostsController.php:58 | the page is the whole number the integer filter reads from `page` when it is at least 1, and 1 for anything else |
| Pagination.ResolvePerPage | src/Http/Controllers/Api/Mobile/PostsController.php:58 | 20 when `per_page` is absent, 15 when it is falsy, a number as it is, and a string exactly when PHP reads it as a non-zero whole number; otherwise no size, the 500 of the paginator; a size is never 0 |
| Pagination.PagesCover | src/Http/Controllers/Api/Mobile/PostsController.php:57-58 | every row lies on the page its index selects, and that page is not past `last_page` |
| Pagination.FirstPagesArePrefix | src/Http/Controllers/Api/Mobile/PostsController.php:57-58 | pages 1 to n one after another are exactly the first `n*perPage` rows: none skipped or repeated |
| Pagination.MorePagesIffRowsRemain | src/Http/Controllers/Api/Mobile/PostsController.php:65 | another page follows page `p` exactly when rows remain after it |
| Validation.EveryItemOfList | src/Http/Controllers/Api/Mobile/PostsController.php:96 | the `.*` wildcard on a list checks each element |
| Validation.RequiredOnLists | src/Http/Controllers/Api/Mobile/PostsController.php:95 | `required` rejects an empty list, null and a blank string, and accepts any non-empty list |
| Validation.StringIdsAsNumbers | src/Http/Controllers/Api/Mobile/PostsController.php:96 | an id sent as the string PHP prints for it passes the `integer` and `exists` rules as the number does, and both select the same row |
| Validation.MalformedIds | src/Http/Controllers/Api/Mobile/PostsController.php:96 | "05" and "5.0" fail the `integer` rule, while a blank id skips it and selects no row |
| PhpValues.FilterIntRoundTrip | src/Http/Controllers/Api/Mobile/PostsController.php:96 | the `integer` rule and PHP arithmetic both read back every integer as PHP prints it |
| PhpValues.FilterIntIsNumeric | src/Http/Controllers/Api/Mobile/PostsController.php:58 | whatever the `integer` rule accepts, PHP arithmetic reads as the same number |
| PhpValues.LeadingZeroIsNumeric | src/Http/Controllers/Api/Mobile/PostsController.php:58 | PHP arithmetic reads "05" as 5 |
| PhpValues.LeadingZeroFailsFilter | src/Http/Controllers/Api/Mobile/PostsController.php:96 | the `integer` rule refuses "05" |
| PhpValues.FractionIsNoInteger | src/Http/Controllers/Api/Mobile/PostsController.php:96 | the `integer` rule refuses "5.0" |
| PostsController.CurrentPage | src/Http/Controllers/Api/Mobile/PostsController.php:58 | the page is the one the integer filter reads from `page` when it is at least 1, else 1 |
| PostsController.IndexConditions | src/Http/Controllers/Api/Mobile/PostsController.php:26-54 | the builder selects exactly the caller's posts passing each filter given: status code, tag, account, and a keyword PHP's `empty` does not reject |
| PostsController.PageOfSorted | src/Http/Controllers/Api/Mobile/PostsController.php:57-58 | a page of a list ordered newest first is ordered newest first |
| PostsController.PageOfSortedFilter | src/Http/Controllers/Api/Mobile/PostsController.php:24-61 | a page of the filtered, ordered rows holds only table rows passing the filter, newest first |
| PostsController.StoreStatus | src/Http/Controllers/Api/Mobile/PostsController.php:94-119 | `store` answers 201 exactly when every rule passes as Laravel reads it (integer ids may come as numbers or integer strings, and a blank optional field skips its rules) and 422 otherwise |
| PostsController.UpdateIsStoreWithoutSchedule | src/Http/Controllers/Api/Mobile/PostsController.php:127-136 | a body passing `store` passes `update`, and `update` ignores `date` and `time` |
| PostsController.Resolve | src/Http/Controllers/Api/Mobile/PostsController.php:156 | route-model binding, taken to be scoped to the caller, finds a row with that id owned by the caller, or reports that none exists |
| PostsController.PostsTable.Index | src/Http/Controllers/Api/Mobile/PostsController.php:24-77 | `index` fails (500) exactly when the paginator cannot use `per_page`; otherwise it returns the requested page of the caller's matching posts newest first with the paginator's `meta`: every row passes the filters, a positive size bounds the rows, and a negative size lists every matching post |
| PostsController.PostsTable.Schedule | src/Http/Controllers/Api/Mobile/PostsController.php:194-215 | 404 for another user's or a missing post; 422 for an absent, blank or unparseable `scheduled_at`; a found post with a parseable `scheduled_at` always answers 200 and only that post changes, to scheduled at the parsed instant; every other answer leaves the table as it was |
| PostsController.PostsTable.Duplicate | src/Http/Controllers/Api/Mobile/PostsController.php:220-247 | 404 when the post is not the caller's; otherwise one row is appended: a draft without dates under the next id, with the source's owner, accounts, tags and versions |
| PostsController.PostsTable.Destroy | src/Http/Controllers/Api/Mobile/PostsController.php:156-163 | 404 when the post is not the caller's; otherwise exactly that row leaves the table, its id is trashed, and the ids stay distinct |
| PostsController.PostsTable.BulkDestroy | src/Http/Controllers/Api/Mobile/PostsController.php:168-189 | 422 exactly when `posts` is not a non-empty array of integer ids (numbers or integer strings) of rows of the posts table, trashed ones included; otherwise the caller's listed live posts are removed and trashed and every other row stays |
| PostsController.TrashedIdStillExists | src/Http/Controllers/Api/Mobile/PostsController.php:171-172 | a trashed id still passes `exists:mixpost_posts,id`, so a second `bulkDestroy` listing it is accepted |
| PostsController.AppQueryReachesIndex | src/Http/Controllers/Api/Mobile/PostsController.php:30-58 | the query the app sends reaches `index` as the same status, tag, account, keyword and page filters, the page read back as sent, with 20 rows per page |
| PostsController.ZeroKeywordIsNoFilter | src/Http/Controllers/Api/Mobile/PostsController.php:49 | a search for "0" filters nothing, since PHP's `empty("0")` is true |
| PostsController.IntArrayExisting | src/Http/Controllers/Api/Mobile/PostsController.php:95-96 | an id list passes `required` exactly when non-empty and `integer` and `exists` exactly when every id is known |
| PostsController.VersionsValid | src/Http/Controllers/Api/Mobile/PostsController.php:97-100 | each version the app sends, with some content, passes the version rules |
| PostsController.StoreValidByFields | src/Http/Controllers/Api/Mobile/PostsController.php:94-105 | on a body shaped like the app's request, `store` passes exactly when accounts and versions are non-empty and every account and tag id exists |
| PostsController.AppRequestPassesStore | src/Http/Controllers/Api/Mobile/PostsController.php:94-105 | the app's request body passes `store` exactly when it has an account and a version and every account and tag exists; it then also passes `update` |
| PostsController.ComposerRequestPassesStore | src/Http/Controllers/Api/Mobile/PostsController.php:94-105 | a request built by the composer is refused only for no account or an unknown account or tag id |
| PostsController.AppBulkDeleteBody | src/Http/Controllers/Api/Mobile/PostsController.php:170-184 | the app's bulk delete body is accepted exactly when it lists an id and all exist, and it selects exactly the listed ids |
| PostsController.BulkDestroyScope | src/Http/Controllers/Api/Mobile/PostsController.php:182-184 | `bulkDestroy` never removes another user's post, removes every listed post of the caller and keeps unlisted ones |
| PostsController.DuplicateMatchesLikeSource | src/Http/Controllers/Api/Mobile/PostsController.php:222-242 | a duplicate meets the same account, tag, owner and keyword conditions as its source, is a draft and is never in the calendar |
| PostsController.DuplicateListedFirst | src/Http/Controllers/Api/Mobile/PostsController.php:57 | a copy newer than every row comes first in `latest()` order |
| PostsController.ScheduledPostInCalendar | src/Http/Controllers/Api/Mobile/PostsController.php:207-210 | a post scheduled at an instant is in the calendar window the app asks for on that day, week or month |
| CalendarController.WeekWindow | src/Http/Controllers/Api/Mobile/CalendarController.php:25-27 | the week window starts at Monday midnight, at most six days back, and ends at 23:59:59 six days later |
| CalendarController.MonthWindow | src/Http/Controllers/Api/Mobile/CalendarController.php:28-31 | the month window runs from midnight seven days before the first to 23:59:59 seven days after the last day |
| CalendarController.WindowFor | src/Http/Controllers/Api/Mobile/CalendarController.php:25-31 | only `type=week` selects the week window; any other type the month window |
| CalendarController.RequestDate | src/Http/Controllers/Api/Mobile/CalendarController.php:19-22 | `date` defaults to today; a given date is used exactly when it parses as `Y-m-d` |
| CalendarController.BuildConditions | src/Http/Controllers/Api/Mobile/CalendarController.php:34-54 | the builder selects exactly the caller's scheduled posts scheduled or published inside the window, attached to the requested account and tag |
| CalendarController.FirstBlock | src/Http/Controllers/Api/Mobile/CalendarController.php:61-62 | `$versionContent[0]` is a list's first element or an object's key "0", and nothing for a scalar |
| CalendarController.ContentOf | src/Http/Controllers/Api/Mobile/CalendarController.php:59-65 | `content` is the first version's first block's non-null `value`, and null without a version |
| CalendarController.ItemOf | src/Http/Controllers/Api/Mobile/CalendarController.php:67-88 | each item carries the post's id, status code, dates, content, and its accounts' and tags' ids in order |
| CalendarController.ContentOfClientVersion | src/Http/Controllers/Api/Mobile/CalendarController.php:59-65 | the text block the app writes is the content the calendar returns |
| CalendarController.OrderedItems | src/Http/Controllers/Api/Mobile/CalendarController.php:56-89 | one item per selected row, ordered by scheduled date |
| CalendarController.MappedMembers | src/Http/Controllers/Api/Mobile/CalendarController.php:58 | mapping a rearrangement of the rows gives one item per row and no other |
| CalendarController.MappedInOrder | src/Http/Controllers/Api/Mobile/CalendarController.php:56-58 | mapping rows ordered by scheduled date keeps that order |
| CalendarController.Invoke | src/Http/Controllers/Api/Mobile/CalendarController.php:17-99 | fails exactly on an unparseable date; otherwise returns exactly the matching rows' items, ordered by scheduled date, and the window's bounds and type as `period` |
| CalendarController.DecodeAccounts | src/Http/Controllers/Api/Mobile/CalendarController.php:73-80 | the app decodes the accounts exactly when every provider is known, keeping ids and providers |
| CalendarController.DecodeItem | src/Http/Controllers/Api/Mobile/CalendarController.php:67-88 | the app decodes an item exactly when its status is known, its content is text or null and its providers are known, keeping id, status and dates |
| CalendarController.ServerPostsShowOnScheduledDate | src/Http/Controllers/Api/Mobile/CalendarController.php:36 | every post the endpoint returns is filed by the app under its scheduled date |
| CalendarController.WeekWindowMatchesWeekGrid | src/Http/Controllers/Api/Mobile/CalendarController.php:25-27 | the week window is exactly the app's seven week cells: an instant is inside exactly when it falls on one of them |
| CalendarController.MonthWindowAgainstMonthGrid | src/Http/Controllers/Api/Mobile/CalendarController.php:28-31 | the month window starts before every grid cell and covers a cell exactly when it is at most seven days past the month |
| CalendarController.FebruaryTailOutsideWindow | src/Http/Controllers/Api/Mobile/CalendarController.php:30 | for February 2026, the grid's last seven cells lie past the month window, so their posts are never fetched |
| MediaController.SizeUnit | src/Http/Controllers/Api/Mobile/MediaController.php:249-254 | the unit is `$size[$factor]` for a factor below 5, and there is none (an undefined index) otherwise |
| MediaController.UnitIndexBounds | src/Http/Controllers/Api/Mobile/MediaController.php:252 | the factor is `k` exactly when the byte count lies in the `k`-th block of three decimal digits |
| MediaController.SizeUnitByDecade | src/Http/Controllers/Api/Mobile/MediaController.php:251-253 | below 1000 bytes the unit is "B", then "KB", "MB", "GB" and "TB" per three decades; from 10^15 bytes on there is no unit |
| MediaController.OwnedMedia | src/Http/Controllers/Api/Mobile/MediaController.php:21 | `forCurrentUser()` keeps exactly the caller's rows |
| MediaController.KeepMedia | src/Http/Controllers/Api/Mobile/MediaController.php:228-230 | a filter keeps exactly the rows that pass it, in table order |
| MediaController.KeepMediaTwice | src/Http/Controllers/Api/Mobile/MediaController.php:228-229 | two filters one after the other keep the same rows as their conjunction |
| MediaController.KeepMediaAgree | src/Http/Controllers/Api/Mobile/MediaController.php:228-229 | filters that agree on every row keep the same rows |
| MediaController.KeepMediaAll | src/Http/Controllers/Api/Mobile/MediaController.php:228-229 | a filter passing every row keeps the table unchanged |
| MediaController.KeepMediaKeepsIds | src/Http/Controllers/Api/Mobile/MediaController.php:238 | deleting rows keeps the remaining ids distinct and below the next id |
| MediaController.LatestIsPreorder | src/Http/Controllers/Api/Mobile/MediaController.php:22 | `latest()` is a total preorder |
| MediaController.FilesOf | src/Http/Controllers/Api/Mobile/MediaController.php:232-236 | the files removed are exactly those of the visited rows with a disk and a path |
| MediaController.CurrentPage | src/Http/Controllers/Api/Mobile/MediaController.php:23 | the page is the one the integer filter reads from `page` when it is at least 1, else 1 |
| MediaController.AcceptedUploadsHaveUnit | src/Http/Controllers/Api/Mobile/MediaController.php:129-131 | every file within `max:204800` kilobytes gets a unit, at most "MB" |
| MediaController.AfterLast | src/Http/Controllers/Api/Mobile/MediaController.php:180 | the text after the last separator is a suffix without that separator, preceded by it when shorter |
| MediaController.AfterLastOfSuffix | src/Http/Controllers/Api/Mobile/MediaController.php:180 | after `s + c + t` with no `c` in `t` comes exactly `t` |
| MediaController.AfterLastNone | src/Http/Controllers/Api/Mobile/MediaController.php:180 | without the separator the whole text is returned |
| MediaController.StripTrailingSlashes | src/Http/Controllers/Api/Mobile/MediaController.php:180 | `basename` ignores trailing slashes: the result is a prefix not ending in '/' |
| MediaController.ExtensionChars | src/Http/Controllers/Api/Mobile/MediaController.php:181 | an extension holds no dot, and no slash when the name held none |
| MediaController.ExtensionOrJpgShape | src/Http/Controllers/Api/Mobile/MediaController.php:181 | the extension a download is stored with is never empty and holds no dot or slash |
| MediaController.JoinedWithoutSlash | src/Http/Controllers/Api/Mobile/MediaController.php:182 | `uniqid() . '.' . $extension` holds no slash when its parts hold none |
| MediaController.BasenameOfPlainName | src/Http/Controllers/Api/Mobile/MediaController.php:180 | a name without a slash is its own basename |
| MediaController.NameWithExtension | src/Http/Controllers/Api/Mobile/MediaController.php:180-182 | the name `u.e` is its own basename and its extension is `e` |
| MediaController.StoredNameKeepsExtension | src/Http/Controllers/Api/Mobile/MediaController.php:179-182 | the stored name is its own basename and keeps the URL's extension, or "jpg" |
| MediaController.ExtensionOfFile | src/Http/Controllers/Api/Mobile/MediaController.php:179-181 | a URL path ending in `/file` is stored with that file's extension, or "jpg" when it is empty or "0" |
| MediaController.ExtensionOfUrl | src/Http/Controllers/Api/Mobile/MediaController.php:179-181 | a URL ending in `/base.ext` is stored with `ext`, or "jpg" when `ext` is "0" |
| MediaController.ExtensionOfUndotted | src/Http/Controllers/Api/Mobile/MediaController.php:179-181 | a URL whose last component has no dot is stored as "jpg" |
| MediaController.GifItemOf | src/Http/Controllers/Api/Mobile/MediaController.php:105-111 | each item keeps Tenor's id, with "" for a missing URL, preview or title |
| MediaController.SearchGifs | src/Http/Controllers/Api/Mobile/MediaController.php:80-122 | an empty keyword answers an empty list with no call; a failed call answers an empty list and the error; otherwise one item per result and Tenor's `next` |
| MediaController.EmptyKeywordMakesNoCall | src/Http/Controllers/Api/Mobile/MediaController.php:85-90 | Tenor is called exactly when the keyword is neither "" nor "0"; otherwise the answer does not depend on the call |
| MediaController.PageOfSorted | src/Http/Controllers/Api/Mobile/MediaController.php:21-23 | a page of media ordered newest first is ordered newest first and holds only listed rows |
| MediaController.PageOfOwned | src/Http/Controllers/Api/Mobile/MediaController.php:21-23 | a page of the caller's media holds only the caller's rows, newest first |
| MediaController.AppendWithNextId | src/Http/Controllers/Api/Mobile/MediaController.php:145-153 | a row created with the next id keeps the ids distinct and below the following one |
| MediaController.MediaTable.Uploads | src/Http/Controllers/Api/Mobile/MediaController.php:19-34 | `uploads` fails (500) exactly when the paginator cannot use `per_page`; otherwise it returns the requested page of the caller's media newest first with its paging fields, and a negative size lists all of them |
| MediaController.MediaTable.Upload | src/Http/Controllers/Api/Mobile/MediaController.php:127-156 | 422 and no change for a missing or oversized file; otherwise the file is stored and one row is created for the caller with the next id, the size and its unit (201) |
| MediaController.MediaTable.DownloadExternal | src/Http/Controllers/Api/Mobile/MediaController.php:161-209 | 422 for an invalid URL; 500 with no change when the fetch fails; otherwise the file is written under `uniqid.ext`, then a size without a unit fails (500) and any other creates the row (201); the next id advances exactly when a row is created |
| MediaController.MediaTable.Destroy | src/Http/Controllers/Api/Mobile/MediaController.php:214-244 | 422 with no change unless `media` is a non-empty list of integer ids (numbers or integer strings) of existing rows; otherwise exactly the caller's listed rows are removed, with their files, and other users' rows stay |
| MediaController.DeleteEach | src/Http/Controllers/Api/Mobile/MediaController.php:232-239 | the loop over the fetched rows removes exactly their rows and exactly their files |
| MediaController.DestroyStep | src/Http/Controllers/Api/Mobile/MediaController.php:232-239 | one turn of the loop removes the next row and adds its file, when it has one |
| MediaController.DestroyedRows | src/Http/Controllers/Api/Mobile/MediaController.php:228-239 | deleting the ids of the caller's listed rows leaves exactly the rows that are not both the caller's and listed |
| MediaController.DestroySparesOthers | src/Http/Controllers/Api/Mobile/MediaController.php:228 | another user's row survives `destroy`, whatever ids are listed |
| AccountsController.AccountLatestIsPreorder | src/Http/Controllers/Api/Mobile/AccountsController.php:21 | `latest()` is a total preorder on accounts |
| AccountsController.OwnedAccounts | src/Http/Controllers/Api/Mobile/AccountsController.php:19 | `forCurrentUser()` keeps exactly the caller's accounts |
| AccountsController.ResolveAccount | src/Http/Controllers/Api/Mobile/AccountsController.php:51 | route-model binding, taken to be scoped to the caller, finds one of the caller's accounts with the id, or reports that none has it |
| AccountsController.MergeData | src/Http/Controllers/Api/Mobile/AccountsController.php:63 | `array_merge` holds the keys of both arrays, the newer value winning |
| AccountsController.MergeDataLaws | src/Http/Controllers/Api/Mobile/AccountsController.php:63 | merging nothing in keeps the data, merging into nothing gives the new data, and merging twice is merging once |
| AccountsController.Refreshed | src/Http/Controllers/Api/Mobile/AccountsController.php:60-64 | the refreshed row takes the provider's name and username where sent, keeps them otherwise, and keeps id, owner, provider and image |
| AccountsController.RefreshIdempotent | src/Http/Controllers/Api/Mobile/AccountsController.php:59-64 | refreshing a second time with the same provider answer changes nothing |
| AccountsController.GetOAuthUrl | src/Http/Controllers/Api/Mobile/AccountsController.php:30-46 | the provider's URL with the session state, or 500 with the fixed message and the exception's text |
| AccountsController.Entities | src/Http/Controllers/Api/Mobile/AccountsController.php:113 | the request's `entities` field when present, an empty list otherwise |
| AccountsController.GetEntities | src/Http/Controllers/Api/Mobile/AccountsController.php:93-106 | the provider's entities, or 500 with the fixed message and the exception's text |
| AccountsController.AccountsTable.Index | src/Http/Controllers/Api/Mobile/AccountsController.php:17-25 | exactly the caller's accounts, as a permutation sorted newest first |
| AccountsController.AccountsTable.Update | src/Http/Controllers/Api/Mobile/AccountsController.php:51-76 | 404 for an account that is not the caller's; 500 and no change on an exception; with non-empty provider data the row is refreshed, otherwise left, and returned with 200 |
| AccountsController.AccountsTable.Destroy | src/Http/Controllers/Api/Mobile/AccountsController.php:81-88 | the caller's account is removed and nothing else; 404 otherwise |
| AccountsController.AccountsTable.StoreEntities | src/Http/Controllers/Api/Mobile/AccountsController.php:111-126 | the provider gets the sent entities or an empty list; the accounts it stored are appended, or 500 and nothing stored |
| AccountsController.RefreshKeepsOwnership | src/Http/Controllers/Api/Mobile/AccountsController.php:60-64 | a refresh leaves every other row alone and every id resolves as before |
| AccountsController.ResolveSameKeys | src/Http/Controllers/Api/Mobile/AccountsController.php:51 | rows that agree on id and owner resolve every id alike |
| TagsController.NameOrderIsPreorder | src/Http/Controllers/Api/Mobile/TagsController.php:20 | `orderBy('name')` is a total preorder on tags |
| TagsController.OwnedTags | src/Http/Controllers/Api/Mobile/TagsController.php:19 | `forCurrentUser()` keeps exactly the caller's tags |
| TagsController.ResolveTag | src/Http/Controllers/Api/Mobile/TagsController.php:55 | route-model binding, taken to be scoped to the caller, finds one of the caller's tags with the id, or reports that none has it |
| TagsController.TagsTable.Index | src/Http/Controllers/Api/Mobile/TagsController.php:17-24 | exactly the caller's tags, as a permutation sorted by name in code-point order |
| TagsController.TagsTable.Store | src/Http/Controllers/Api/Mobile/TagsController.php:29-50 | 422 and no change unless name (at most 255) and hex_color (at most 7) are non-blank strings; otherwise one tag is created for the caller with the next id (201) |
| TagsController.TagsTable.Update | src/Http/Controllers/Api/Mobile/TagsController.php:55-75 | 404 for a tag that is not the caller's, 422 for an invalid body, otherwise only the name and colour change |
| TagsController.TagsTable.Destroy | src/Http/Controllers/Api/Mobile/TagsController.php:80-87 | the caller's tag is removed and nothing else; 404 otherwise |
| TagsController.UpdateKeepsOwnerAndId | src/Http/Controllers/Api/Mobile/TagsController.php:69-72 | an update keeps the tag's id and owner, touches no other row and leaves the owner's tag count |
| TagsController.OwnedTagsCountUnchanged | src/Http/Controllers/Api/Mobile/TagsController.php:69-72 | replacing a row by one with the same owner keeps the owner's row count |
| TagsController.ColourLengthRule | src/Http/Controllers/Api/Mobile/TagsController.php:33 | every predefined colour passes `max:7`, while an eight-digit colour, which the app reads with alpha, is refused |
| SettingsController.GetOr | src/Http/Controllers/Api/Mobile/SettingsController.php:19-22 | `Settings::get` gives the stored value when there is one and the default otherwise |
| SettingsController.SettingsStore.Index | src/Http/Controllers/Api/Mobile/SettingsController.php:16-24 | `index` answers exactly the four settings, each with its default where none is stored |
| SettingsController.SettingsStore.Update | src/Http/Controllers/Api/Mobile/SettingsController.php:29-59 | 422 and nothing written unless the zone is known, the time format and week start are integers (numbers or integer strings) among 12/24 and 0/1, and a non-blank e-mail is an address; otherwise the three settings and a sent admin e-mail are written and read back, null for a missing e-mail |
| SettingsController.WrittenSettings | src/Http/Controllers/Api/Mobile/SettingsController.php:45-51 | a valid update adds exactly the three settings and a sent admin e-mail, and keeps every other stored key |
| SettingsController.UpdateThenIndex | src/Http/Controllers/Api/Mobile/SettingsController.php:45-51 | after an update `index` shows the sent values, and the old or default admin e-mail when none was sent |
| SettingsController.EmptyStoreShowsDefaults | src/Http/Controllers/Api/Mobile/SettingsController.php:19-22 | with nothing stored `index` shows the app's defaults, but an empty admin e-mail where the app has none |
| SettingsController.AppSettingsPassUpdate | src/Http/Controllers/Api/Mobile/SettingsController.php:31-36 | the app's settings pass `update` exactly when the zone is known, the format 12 or 24, the week start 0 or 1 and any e-mail blank or an address; the defaults always pass |
| SettingsController.ChoiceAsText | src/Http/Controllers/Api/Mobile/SettingsController.php:33-34 | a choice sent as the string PHP prints for it passes the `required`, `integer` and `in` rules as the number does |
| SettingsController.StringSettingsPass | src/Http/Controllers/Api/Mobile/SettingsController.php:31-36 | a body with "24" and "1" as strings and a blank admin e-mail passes every rule |
| SettingsController.LeadingZeroChoiceFails | src/Http/Controllers/Api/Mobile/SettingsController.php:33 | "024" is no valid time format, since the `integer` rule refuses it |
| ReportsController.FindAccount | src/Http/Controllers/Api/Mobile/ReportsController.php:30 | `forCurrentUser()->find` gives one of the caller's accounts whose id the key spells, or none exists |
| ReportsController.DecimalIdFindsOwnAccount | src/Http/Controllers/Api/Mobile/ReportsController.php:30 | the decimal id the app sends finds the caller's account |
| ReportsController.WindowStart | src/Http/Controllers/Api/Mobile/ReportsController.php:22-39 | the window starts `period` days before now, 30 without a period |
| ReportsController.DateOrdersArePreorders | src/Http/Controllers/Api/Mobile/ReportsController.php:42-59 | `orderBy('date')` is a total preorder on metrics and on audience rows |
| ReportsController.MetricsOf | src/Http/Controllers/Api/Mobile/ReportsController.php:42-43 | exactly the account's metrics dated inside the window, both ends included |
| ReportsController.AudienceOf | src/Http/Controllers/Api/Mobile/ReportsController.php:56-57 | exactly the account's audience rows dated inside the window |
| ReportsController.History | src/Http/Controllers/Api/Mobile/ReportsController.php:60-65 | one history entry per audience row, with its date and total |
| ReportsController.SumFieldAppend | src/Http/Controllers/Api/Mobile/ReportsController.php:75-78 | a field's total over two lists of metrics is the sum of their totals |
| ReportsController.SumFieldBounds | src/Http/Controllers/Api/Mobile/ReportsController.php:75-78 | metrics without the field add nothing, and non-negative values give a non-negative total |
| ReportsController.SumFieldRemove | src/Http/Controllers/Api/Mobile/ReportsController.php:75-78 | taking one metric out takes its value out of the total |
| ReportsController.SumFieldPermutation | src/Http/Controllers/Api/Mobile/ReportsController.php:75-78 | a field's total does not depend on the order of the metrics |
| ReportsController.RoundHundredths | src/Http/Controllers/Api/Mobile/ReportsController.php:72 | `round(x, 2)` is within half a hundredth of the quotient and keeps its sign |
| ReportsController.HalfUp | src/Http/Controllers/Api/Mobile/ReportsController.php:88-90 | the nearest whole number to a non-negative quotient, halves up |
| ReportsController.AverageEngagement | src/Http/Controllers/Api/Mobile/ReportsController.php:88-90 | 0 without metrics |
| ReportsController.AverageEngagementRounds | src/Http/Controllers/Api/Mobile/ReportsController.php:88-89 | with metrics, the average is the engagement total over their count, to the nearest hundredth |
| ReportsController.AudienceSummary | src/Http/Controllers/Api/Mobile/ReportsController.php:68-73 | current and previous are the latest and earliest counts (0 without history), change their difference, and the percentage the rounded ratio, 0 when previous is not positive |
| ReportsController.HistoryArrays | src/Http/Controllers/Api/Mobile/ReportsController.php:60-65 | each history entry becomes a PHP array holding its count |
| ReportsController.AudienceCountsAsWrittenAlwaysZero | src/Http/Controllers/Api/Mobile/ReportsController.php:68-69 | reading `?->count` of an array gives null, so both counts are 0 for every history |
| ReportsController.AudienceGrowthCounterexample | src/Http/Controllers/Api/Mobile/ReportsController.php:68-70 | an audience going from 100 to 150 reports growth 0 as written, 50 as meant |
| ReportsController.ObjectReadGivesCount | src/Http/Controllers/Api/Mobile/ReportsController.php:68 | read as an object property, the last entry's count is the corrected current audience |
| ReportsController.ReportFor | src/Http/Controllers/Api/Mobile/ReportsController.php:38-101 | the report holds the account, exactly its window's metrics in date order, the posts, impressions, reach and engagement totals and the rounded average over them whatever their order, the audience summary of the window's history, and a follower growth equal to the audience change |
| ReportsController.Reports | src/Http/Controllers/Api/Mobile/ReportsController.php:19-102 | 422 exactly when the account id is missing or falsy, 404 exactly when it is not the caller's, otherwise 200 with the report for the last `period` days |
| ReportsController.ReportMetrics | src/Http/Controllers/Api/Mobile/ReportsController.php:42-77 | the listed metrics are sorted by date, are exactly the window's, and give the same count, the same four totals and the same average as the unsorted selection |
| ReportsController.ReportHistoryInWindow | src/Http/Controllers/Api/Mobile/ReportsController.php:56-65 | every history entry lies in the window |
| ReportsController.HistoryInDateOrder | src/Http/Controllers/Api/Mobile/ReportsController.php:58 | the history is in date order, so previous is the earliest count and current the latest |
| DashboardController.StatusCount | src/Http/Controllers/Api/Mobile/DashboardController.php:27-37 | a status count never exceeds the number of rows |
| DashboardController.StatusCountsPartition | src/Http/Controllers/Api/Mobile/DashboardController.php:27-37 | the counts of the four statuses add up to the caller's posts: each post counts under its own status only |
| DashboardController.DashboardCountsBound | src/Http/Controllers/Api/Mobile/DashboardController.php:27-37 | the three counts shown never exceed the caller's posts, and reach that number exactly when the caller has no draft |
| DashboardController.Take | src/Http/Controllers/Api/Mobile/DashboardController.php:43 | `take(n)` is the first `n` elements, or all when there are fewer |
| DashboardController.TakeOfSorted | src/Http/Controllers/Api/Mobile/DashboardController.php:42-43 | what the first `n` of a sorted list leave out comes no earlier than the last one taken |
| DashboardController.RecentPostsAreOwned | src/Http/Controllers/Api/Mobile/DashboardController.php:40-44 | at most five posts, all the caller's, newest first |
| DashboardController.RecentPostsAreNewest | src/Http/Controllers/Api/Mobile/DashboardController.php:40-44 | a post of the caller's that is left out is no newer than the fifth one listed |
| DashboardController.DashboardFor | src/Http/Controllers/Api/Mobile/DashboardController.php:19-53 | exactly the caller's accounts newest first; each count is the number of the caller's posts in that status, the three together never exceeding the caller's posts; the recent posts are the caller's five latest, newest first, and any post of the caller's left out is no newer than the fifth |
| Dates.NextDay | Apps/iOS-macOS/VibeCreatorKit/Sources/VibeCreatorKit/Extensions/Date+Extensions.swift:109-111 | the day after a valid date is a valid date |
| Dates.PrevDay | Apps/iOS-macOS/VibeCreatorKit/Sources/VibeCreatorKit/Extensions/Date+Extensions.swift:109-111 | the day before a valid date is a valid date |
| Dates.PrevNext | Apps/iOS-macOS/VibeCreatorKit/Sources/VibeCreatorKit/Extensions/Date+Extensions.swift:109-111 | stepping one day forward and one back, in either order, returns the date |
| Dates.DayNumberNext | Apps/iOS-macOS/VibeCreatorKit/Sources/VibeCreatorKit/Extensions/Date+Extensions.swift:109-111 | the next day is numbered one more |
| Dates.DayNumberPrev | Apps/iOS-macOS/VibeCreatorKit/Sources/VibeCreatorKit/Extensions/Date+Extensions.swift:109-111 | the previous day is numbered one less |
| Dates.AddDays | Apps/iOS-macOS/VibeCreatorKit/Sources/VibeCreatorKit/Extensions/Date+Extensions.swift:109-111 | `addingDays` gives a valid date |
| Dates.AddDaysNextNonNeg | Apps/iOS-macOS/VibeCreatorKit/Sources/VibeCreatorKit/Extensions/Date+Extensions.swift:109-111 | adding one more non-negative day is one step forward |
| Dates.AddDaysNextNeg | Apps/iOS-macOS/VibeCreatorKit/Sources/VibeCreatorKit/Extensions/Date+Extensions.swift:109-111 | adding one more negative day is one step forward |
| Dates.AddDaysNext | Apps/iOS-macOS/VibeCreatorKit/Sources/VibeCreatorKit/Extensions/Date+Extensions.swift:109-111 | adding `n + 1` days is adding `n` and stepping forward |
| Dates.AddDaysPrev | Apps/iOS-macOS/VibeCreatorKit/Sources/VibeCreatorKit/Extensions/Date+Extensions.swift:109-111 | adding `n - 1` days is adding `n` and stepping back |
| Dates.DayNumberAddDays | Apps/iOS-macOS/VibeCreatorKit/Sources/VibeCreatorKit/Extensions/Date+Extensions.swift:109-111 | adding `n` days adds `n` to the day number |
| Dates.DayNumberInjective | Apps/iOS-macOS/VibeCreatorKit/Sources/VibeCreatorKit/Extensions/Date+Extensions.swift:109-111 | two valid dates with the same day number are the same date |
| Dates.DayOfYearInjective | Apps/iOS-macOS/VibeCreatorKit/Sources/VibeCreatorKit/Extensions/Date+Extensions.swift:109-111 | two dates of one year with the same day of the year are the same date |
| Dates.YearBounds | Apps/iOS-macOS/VibeCreatorKit/Sources/VibeCreatorKit/Extensions/Date+Extensions.swift:109-111 | a date's day number lies within its year's |
| Dates.DaysBeforeYearMonotone | Apps/iOS-macOS/VibeCreatorKit/Sources/VibeCreatorKit/Extensions/Date+Extensions.swift:109-111 | later years start later |
| Dates.AddDaysAdditive | Apps/iOS-macOS/VibeCreatorKit/Sources/VibeCreatorKit/Extensions/Date+Extensions.swift:109-111 | adding `m` then `n` days is adding `m + n` |
| Dates.AddDaysRoundTrip | Apps/iOS-macOS/VibeCreatorKit/Sources/VibeCreatorKit/Extensions/Date+Extensions.swift:109-111 | `addingDays(n)` then `addingDays(-n)` returns the date |
| Dates.Weekday | Apps/iOS-macOS/VibeCreatorKit/Sources/VibeCreatorKit/Extensions/Date+Extensions.swift:133-136 | the weekday is in 1..7 |
| Dates.WeekdayAddDays | Apps/iOS-macOS/VibeCreatorKit/Sources/VibeCreatorKit/Extensions/Date+Extensions.swift:133-136 | `n` days later the weekday has moved `n` places, modulo 7 |
| Dates.WeekdayAnchors | Apps/iOS-macOS/VibeCreatorKit/Sources/VibeCreatorKit/Extensions/Date+Extensions.swift:133-136 | 1 January 2001 is a Monday (2) and 1 February 2026 a Sunday (1) |
| Dates.AddMonths | Apps/iOS-macOS/VibeCreatorKit/Sources/VibeCreatorKit/Extensions/Date+Extensions.swift:114-116 | `addingMonths` moves the month index by `n` and clamps the day to the new month's length |
| Dates.AddMonthsRoundTrip | Apps/iOS-macOS/VibeCreatorKit/Sources/VibeCreatorKit/Extensions/Date+Extensions.swift:114-116 | for a day up to the 28th, `n` months forward and back returns the date |
| Dates.AddMonthsClamps | Apps/iOS-macOS/VibeCreatorKit/Sources/VibeCreatorKit/Extensions/Date+Extensions.swift:114-116 | 31 January plus one month is 29 February in 2024 and 28 February in 2025 |
| Dates.KeyInjective | Apps/iOS-macOS/VibeCreatorKit/Sources/VibeCreatorKit/Extensions/Date+Extensions.swift:64-71 | two valid instants at the same second are equal |
| Dates.BeforeIff | Apps/iOS-macOS/VibeCreatorKit/Sources/VibeCreatorKit/Extensions/Date+Extensions.swift:64-71 | instants are ordered by date, then by second |
| Dates.PastFutureExclusive | Apps/iOS-macOS/VibeCreatorKit/Sources/VibeCreatorKit/Extensions/Date+Extensions.swift:63-71 | an instant is never both past and future; now is neither; any other instant is one of them |
| Dates.AddDaysTo | Apps/iOS-macOS/VibeCreatorKit/Sources/VibeCreatorKit/Extensions/Date+Extensions.swift:109-111 | `addingDays` keeps the time of day |
| Dates.SecondBefore | Apps/iOS-macOS/VibeCreatorKit/Sources/VibeCreatorKit/Extensions/Date+Extensions.swift:79-84 | one second earlier is a valid instant |
| Dates.SecondBeforeKey | Apps/iOS-macOS/VibeCreatorKit/Sources/VibeCreatorKit/Extensions/Date+Extensions.swift:79-84 | one second earlier is exactly one second less |
| Dates.EndOfDay | Apps/iOS-macOS/VibeCreatorKit/Sources/VibeCreatorKit/Extensions/Date+Extensions.swift:79-84 | `endOfDay` is a valid instant |
| Dates.EndOfDayIsLastSecond | Apps/iOS-macOS/VibeCreatorKit/Sources/VibeCreatorKit/Extensions/Date+Extensions.swift:79-84 | `endOfDay` falls on the same day, at its last second, one second before the next day starts |
| Dates.StartOfMonth | Apps/iOS-macOS/VibeCreatorKit/Sources/VibeCreatorKit/Extensions/Date+Extensions.swift:87-90 | `startOfMonth` is a valid instant |
| Dates.EndOfMonth | Apps/iOS-macOS/VibeCreatorKit/Sources/VibeCreatorKit/Extensions/Date+Extensions.swift:93-98 | `endOfMonth` is 23:59:59 on the month's last day |
| Dates.MonthBrackets | Apps/iOS-macOS/VibeCreatorKit/Sources/VibeCreatorKit/Extensions/Date+Extensions.swift:87-98 | every instant of a month lies between its start and its end, which are exactly its days apart |
| Dates.StartOfWeek | Apps/iOS-macOS/VibeCreatorKit/Sources/VibeCreatorKit/Extensions/Date+Extensions.swift:101-106 | `startOfWeek` is a valid instant |
| Dates.StartOfWeekProperties | Apps/iOS-macOS/VibeCreatorKit/Sources/VibeCreatorKit/Extensions/Date+Extensions.swift:101-106 | the week starts on weekday `startingOn + 1`, at most six days back |
| Dates.StartOfWeekMod | Apps/iOS-macOS/VibeCreatorKit/Sources/VibeCreatorKit/Extensions/Date+Extensions.swift:101-106 | stepping back `(w - s) mod 7` days lands on weekday `s` |
| Dates.ParseYmd | src/Http/Controllers/Api/Mobile/PostsController.php:103 | a parsed `yyyy-MM-dd` is a valid date of years 0 to 9999 |
| Dates.ParseHm | src/Http/Controllers/Api/Mobile/PostsController.php:104 | a parsed `HH:mm` has an hour below 24 and a minute below 60 |
| Dates.FormatParseYmd | Apps/iOS-macOS/VibeCreatorKit/Sources/VibeCreatorKit/Extensions/Date+Extensions.swift:24-28 | `apiDateString` parses back to the date for years 1 to 9999 |
| Dates.FormatParseHm | Apps/iOS-macOS/VibeCreatorKit/Sources/VibeCreatorKit/Extensions/Date+Extensions.swift:45-49 | `timeString()` parses back to the hour and minute |
| AccountModels.RawValueRoundTrip | Apps/iOS-macOS/VibeCreatorKit/Sources/VibeCreatorKit/Models/Account.swift:7-11 | each provider decodes from its raw value, and only from it |
| AccountModels.RawValuesDistinct | Apps/iOS-macOS/VibeCreatorKit/Sources/VibeCreatorKit/Models/Account.swift:7-11 | the four raw values are distinct |
| AccountModels.AllProvidersComplete | Apps/iOS-macOS/VibeCreatorKit/Sources/VibeCreatorKit/Models/Account.swift:7 | `allCases` lists every provider once |
| AccountModels.CapabilityTable | Apps/iOS-macOS/VibeCreatorKit/Sources/VibeCreatorKit/Models/Account.swift:30-59 | Twitter has the smallest limit (280) and Facebook the largest (5000), Mastodon alone 500; pages and groups agree; one video and one GIF everywhere, at least four photos; only Twitter refuses simultaneous posting |
| AccountModels.AccountEqualityById | Apps/iOS-macOS/VibeCreatorKit/Sources/VibeCreatorKit/Models/Account.swift:104-110 | equality is an equivalence on ids alone, hashing agrees with it, and changing any other field keeps an account equal |
| AccountModels.DisplayNameShape | Apps/iOS-macOS/VibeCreatorKit/Sources/VibeCreatorKit/Models/Account.swift:113-118 | the name comes first, followed by " (@username)" exactly when a non-empty username is known |
| AccountModels.ProfileImageURL | Apps/iOS-macOS/VibeCreatorKit/Sources/VibeCreatorKit/Models/Account.swift:121-124 | none without avatar media, otherwise the avatar's full URL |
| MediaModels.MediaTypeOfIff | Apps/iOS-macOS/VibeCreatorKit/Sources/VibeCreatorKit/Models/Media.swift:59-66 | GIF exactly when the MIME type contains "gif", video exactly when it contains "video" but not "gif", image otherwise |
| MediaModels.MediaTypeGifExamples | Apps/iOS-macOS/VibeCreatorKit/Sources/VibeCreatorKit/Models/Media.swift:59-66 | "image/gif" and "video/gif" are GIFs |
| MediaModels.MediaTypeVideoExample | Apps/iOS-macOS/VibeCreatorKit/Sources/VibeCreatorKit/Models/Media.swift:59-66 | "video/mp4" is a video |
| MediaModels.MediaTypeImageExample | Apps/iOS-macOS/VibeCreatorKit/Sources/VibeCreatorKit/Models/Media.swift:59-66 | "image/png" is an image |
| MediaModels.DisplayURL | Apps/iOS-macOS/VibeCreatorKit/Sources/VibeCreatorKit/Models/Media.swift:69-77 | a display URL parses and is the thumbnail or the file URL |
| MediaModels.FullURL | Apps/iOS-macOS/VibeCreatorKit/Sources/VibeCreatorKit/Models/Media.swift:80-85 | the full URL exists exactly when the file URL is present and parses, and is that URL |
| MediaModels.DisplayFallsBackToFull | Apps/iOS-macOS/VibeCreatorKit/Sources/VibeCreatorKit/Models/Media.swift:69-85 | a parsing thumbnail is shown; otherwise the display URL is the full URL |
| PostModels.StatusCodeRoundTrip | Apps/iOS-macOS/VibeCreatorKit/Sources/VibeCreatorKit/Models/Post.swift:7-11 | the codes are draft 0, scheduled 1, published 2 and failed 3: exactly 0..3 decode, each to the one status with that code |
| PostModels.StatusLabelsDistinct | Apps/iOS-macOS/VibeCreatorKit/Sources/VibeCreatorKit/Models/Post.swift:13-29 | every status has its own display name and its own colour |
| PostModels.ScheduleStatusCodeRoundTrip | Apps/iOS-macOS/VibeCreatorKit/Sources/VibeCreatorKit/Models/Post.swift:33-37 | pending 0, processing 1 and processed 2: exactly 0..2 decode, each to the one status with that code |
| PostModels.DefaultPostIsEmptyDraft | Apps/iOS-macOS/VibeCreatorKit/Sources/VibeCreatorKit/Models/Post.swift:69-82 | a post built with the defaults is a pending draft with every optional field absent, no primary content and no media |
| PostModels.PostEqualityById | Apps/iOS-macOS/VibeCreatorKit/Sources/VibeCreatorKit/Models/Post.swift:84-90 | equality is an equivalence on ids alone, hashing agrees with it, and other fields do not matter |
| PostModels.PrimaryContentCases | Apps/iOS-macOS/VibeCreatorKit/Sources/VibeCreatorKit/Models/Post.swift:93-95 | the primary content is missing exactly when there is no version or the first has no blocks; otherwise it is a block of the first version |
| PostModels.FlatMediaContents | Apps/iOS-macOS/VibeCreatorKit/Sources/VibeCreatorKit/Models/Post.swift:98-100 | all media has as many items as the versions together, and holds exactly the media of some version |
| PostModels.IntArray | Apps/iOS-macOS/VibeCreatorKit/Sources/VibeCreatorKit/Models/Post.swift:160-161 | an id list is sent as a JSON array of the same numbers |
| PostModels.IdsOf | Apps/iOS-macOS/VibeCreatorKit/Sources/VibeCreatorKit/Models/Post.swift:160-161 | a decoded id list has one id per array item |
| PostModels.IdsRoundTrip | Apps/iOS-macOS/VibeCreatorKit/Sources/VibeCreatorKit/Models/Post.swift:160-161 | decoding a sent id list gives the ids back |
| PostModels.VersionJsonShape | Apps/iOS-macOS/VibeCreatorKit/Sources/VibeCreatorKit/Models/Post.swift:184-190 | a version is sent with exactly `account_id`, `content` and `media`, holding its account, its blocks and its media ids |
| PostModels.RequestJsonShape | Apps/iOS-macOS/VibeCreatorKit/Sources/VibeCreatorKit/Models/Post.swift:158-169 | a request always has accounts, tags and versions, each version encoded in order, and has `date` and `time` exactly when they are set |
| TagModels.TrimNonAlnum | Apps/iOS-macOS/VibeCreatorKit/Sources/VibeCreatorKit/Models/Tag.swift:41 | the trimmed string is no longer and starts and ends with an alphanumeric character |
| TagModels.HexValueBound | Apps/iOS-macOS/VibeCreatorKit/Sources/VibeCreatorKit/Models/Tag.swift:43 | a hex numeral of `k` digits is below 16^k |
| TagModels.HexPrefix | Apps/iOS-macOS/VibeCreatorKit/Sources/VibeCreatorKit/Models/Tag.swift:43 | the scanner reads the longest prefix of hex digits |
| TagModels.ScanHex | Apps/iOS-macOS/VibeCreatorKit/Sources/VibeCreatorKit/Models/Tag.swift:43 | the scanned value has no more hex digits than the string |
| TagModels.ColorChannelsAreBytes | Apps/iOS-macOS/VibeCreatorKit/Sources/VibeCreatorKit/Models/Tag.swift:40-54 | every channel of every parsed colour is in 0..255, whatever the input |
| TagModels.OtherLengthsAreBlack | Apps/iOS-macOS/VibeCreatorKit/Sources/VibeCreatorKit/Models/Tag.swift:52-53 | a trimmed length other than 3, 6 and 8 gives opaque black |
| TagModels.HexValueAppend | Apps/iOS-macOS/VibeCreatorKit/Sources/VibeCreatorKit/Models/Tag.swift:43 | the value of two numerals side by side is the first shifted past the second, plus the second |
| TagModels.HexPrefixOfAllHex | Apps/iOS-macOS/VibeCreatorKit/Sources/VibeCreatorKit/Models/Tag.swift:43 | a string of hex digits is read whole |
| TagModels.SixHexValue | Apps/iOS-macOS/VibeCreatorKit/Sources/VibeCreatorKit/Models/Tag.swift:49 | six hex digits are three bytes, high first |
| TagModels.SixDigitColor | Apps/iOS-macOS/VibeCreatorKit/Sources/VibeCreatorKit/Models/Tag.swift:48-49 | `#RRGGBB` is opaque with the three byte pairs as red, green and blue |
| TagModels.ThreeDigitColor | Apps/iOS-macOS/VibeCreatorKit/Sources/VibeCreatorKit/Models/Tag.swift:46-47 | `#RGB` is opaque with each digit times 17 |
| TagModels.EightHexValue | Apps/iOS-macOS/VibeCreatorKit/Sources/VibeCreatorKit/Models/Tag.swift:51 | eight hex digits are the alpha byte followed by six more digits |
| TagModels.HashHexScans | Apps/iOS-macOS/VibeCreatorKit/Sources/VibeCreatorKit/Models/Tag.swift:41-43 | after `#`, a run of hex digits is kept whole by the trim and read whole by the scanner |
| TagModels.EightDigitColor | Apps/iOS-macOS/VibeCreatorKit/Sources/VibeCreatorKit/Models/Tag.swift:50-51 | `#AARRGGBB` has the four byte pairs as alpha, red, green and blue |
| TagModels.RrggbbIsOpaque | Apps/iOS-macOS/VibeCreatorKit/Sources/VibeCreatorKit/Models/Tag.swift:48-49 | a `#RRGGBB` colour is opaque |
| TagModels.PredefinedColorsShape | Apps/iOS-macOS/VibeCreatorKit/Sources/VibeCreatorKit/Models/Tag.swift:90-110 | there are 19 predefined colours, each `#RRGGBB` in capitals, all opaque |
| TagModels.PairValue | Apps/iOS-macOS/VibeCreatorKit/Sources/VibeCreatorKit/Models/Tag.swift:49 | a byte pair is sixteen times its first digit plus its second |
| TagModels.RedExample | Apps/iOS-macOS/VibeCreatorKit/Sources/VibeCreatorKit/Models/Tag.swift:91 | "#F44336" reads as opaque (244, 67, 54) |
| SettingsModels.ToDictionaryShape | Apps/iOS-macOS/VibeCreatorKit/Sources/VibeCreatorKit/Models/Settings.swift:27-39 | the dictionary always holds the zone, the time format and the week start, and `admin_email` exactly when an e-mail is set |
| SettingsModels.DisplayStrings | Apps/iOS-macOS/VibeCreatorKit/Sources/VibeCreatorKit/Models/Settings.swift:42-49 | "12-hour" exactly for format 12 and "24-hour" otherwise; "Sunday" exactly for week start 0 and "Monday" otherwise; the defaults show "24-hour" and "Monday" |
| SettingsModels.TimezoneListShape | Apps/iOS-macOS/VibeCreatorKit/Sources/VibeCreatorKit/Models/Settings.swift:54-97 | the list holds 42 distinct zones and starts with the default zone, "UTC" |
| CalendarModels.EffectiveDate | Apps/iOS-macOS/VibeCreatorKit/Sources/VibeCreatorKit/Models/Calendar.swift:46-48 | the effective date exists exactly when a scheduled or published date does; it is the scheduled date when there is one, else the published date |
| CalendarModels.CalendarPostEqualityById | Apps/iOS-macOS/VibeCreatorKit/Sources/VibeCreatorKit/Models/Calendar.swift:37-43 | equality is an equivalence on ids alone, hashing agrees with it, and other fields do not matter |
| CalendarModels.PeriodDatesRoundTrip | Apps/iOS-macOS/VibeCreatorKit/Sources/VibeCreatorKit/Models/Calendar.swift:72-82 | a period's `start` and `end` strings parse back to the dates they were formatted from |
| CalendarModels.NewDay | Apps/iOS-macOS/VibeCreatorKit/Sources/VibeCreatorKit/Models/Calendar.swift:94-99 | a day built with the defaults is in the current month, not today, and has no posts |
| CalendarModels.DayOfMonth | Apps/iOS-macOS/VibeCreatorKit/Sources/VibeCreatorKit/Models/Calendar.swift:101-103 | `dayNumber` is in 1..31 and within the month's length |
| CalendarModels.SameCalendarDayIgnoresRest | Apps/iOS-macOS/VibeCreatorKit/Sources/VibeCreatorKit/Models/Calendar.swift:109-111 | equality is an equivalence that looks only at the calendar day, not the time, the flags or the posts |
| CalendarModels.DayHashAsWrittenDisagreesWithEquality | Apps/iOS-macOS/VibeCreatorKit/Sources/VibeCreatorKit/Models/Calendar.swift:105-107 | two cells of the same day, at midnight and at 23:59:59, are equal yet hash differently as written |
| CalendarModels.DayHashAgreesWithEquality | Apps/iOS-macOS/VibeCreatorKit/Sources/VibeCreatorKit/Models/Calendar.swift:105-111 | hashing the day instead makes equal cells hash alike and cells of different days hash apart |
| SystemModels.StatusColor | Apps/iOS-macOS/VibeCreatorKit/Sources/VibeCreatorKit/Models/System.swift:66-68 | green exactly when the check is healthy, red otherwise |
| SystemModels.LowerIdempotent | Apps/iOS-macOS/VibeCreatorKit/Sources/VibeCreatorKit/Models/System.swift:63 | lower-casing twice is lower-casing once |
| SystemModels.HealthIgnoresCase | Apps/iOS-macOS/VibeCreatorKit/Sources/VibeCreatorKit/Models/System.swift:62-64 | health does not depend on letter case, and a healthy status has 2 or 7 characters |
| SystemModels.MixedCaseHealthy | Apps/iOS-macOS/VibeCreatorKit/Sources/VibeCreatorKit/Models/System.swift:62-64 | "OK" and "Running" are healthy |
| SystemModels.ServerStatusesClassified | Apps/iOS-macOS/VibeCreatorKit/Sources/VibeCreatorKit/Models/System.swift:62-68 | of the statuses the server sends, "ok" and "running" are green while "stopped", "unknown" and "error" are red |
| ApiClient.EncodingByMethod | Apps/iOS-macOS/VibeCreatorKit/Sources/VibeCreatorKit/API/APIClient.swift:331 | GET sends its parameters URL-encoded and every other method as a JSON body |
| ApiClient.MapErrorClassifies | Apps/iOS-macOS/VibeCreatorKit/Sources/VibeCreatorKit/API/APIClient.swift:365-382 | 401, 403, 404, 422, 429 and 500..599 map to their own errors (422 with "Validation failed"); anything else, or no response, is a network error carrying the description; nothing maps to a decoding error |
| ApiClient.ErrorDescriptionsCarryPayload | Apps/iOS-macOS/VibeCreatorKit/Sources/VibeCreatorKit/API/APIClient.swift:397-416 | a validation error shows its message; network and decoding errors show their fixed prefix followed by the message |
| ApiClient.FixedErrorTextsDistinct | Apps/iOS-macOS/VibeCreatorKit/Sources/VibeCreatorKit/API/APIClient.swift:397-416 | the five errors without a payload show five different texts |
| ApiClient.FixedTextLength | Apps/iOS-macOS/VibeCreatorKit/Sources/VibeCreatorKit/API/APIClient.swift:399-410 | each fixed error text has its own length |
| ApiClient.AuthHeadersCarryTokens | Apps/iOS-macOS/VibeCreatorKit/Sources/VibeCreatorKit/API/APIClient.swift:347-363 | the server reads back exactly the stored access token; the CSRF header is present exactly when a CSRF token is stored; the fixed headers are always sent |
| ApiClient.PostsParametersRoundTrip | Apps/iOS-macOS/VibeCreatorKit/Sources/VibeCreatorKit/API/APIClient.swift:86-92 | the page is always sent and each filter exactly when given; reading them back gives the query, the status through its code |
| ApiClient.CalendarParametersRoundTrip | Apps/iOS-macOS/VibeCreatorKit/Sources/VibeCreatorKit/API/APIClient.swift:139-151 | the date reads back as the shown day, the type is "week" exactly for the week view, and account and tag are sent exactly when given |
| ApiClient.DeleteParametersRoundTrip | Apps/iOS-macOS/VibeCreatorKit/Sources/VibeCreatorKit/API/APIClient.swift:116-120 | the bulk delete body holds only its key, with exactly the ids in order |
| AuthManager.Lookup | Apps/iOS-macOS/VibeCreatorKit/Sources/VibeCreatorKit/API/AuthManager.swift:23 | a key store gives the stored value exactly when the key is present |
| AuthManager.SetKeyThenLookup | Apps/iOS-macOS/VibeCreatorKit/Sources/VibeCreatorKit/API/AuthManager.swift:24-30 | after a token setter, reading the key gives what was set, other keys are unchanged, and `nil` removes the key |
| AuthManager.SavedTokensAreTheResponse | Apps/iOS-macOS/VibeCreatorKit/Sources/VibeCreatorKit/API/AuthManager.swift:68-71 | after saving a response the store holds exactly its three tokens, a missing one removed |
| AuthManager.SavedTokensReachHeaders | Apps/iOS-macOS/VibeCreatorKit/Sources/VibeCreatorKit/API/AuthManager.swift:68-71 | the next request after a save carries the response's access token, and its CSRF token exactly when it has one |
| AuthManager.Session.constructor | Apps/iOS-macOS/VibeCreatorKit/Sources/VibeCreatorKit/API/AuthManager.swift:55-57 | a launch signs in exactly when a non-empty access token is stored, with the stored user if any |
| AuthManager.Session.SetAccessToken | Apps/iOS-macOS/VibeCreatorKit/Sources/VibeCreatorKit/API/AuthManager.swift:22-31 | the setter changes only the access token key, which then reads back as set |
| AuthManager.Session.CheckAuthState | Apps/iOS-macOS/VibeCreatorKit/Sources/VibeCreatorKit/API/AuthManager.swift:60-65 | a non-empty access token signs in and loads a stored user; otherwise nothing changes; a signed-in session stays signed in |
| AuthManager.Session.SaveUser | Apps/iOS-macOS/VibeCreatorKit/Sources/VibeCreatorKit/API/AuthManager.swift:81-87 | the user becomes current and is stored; tokens and sign-in state are unchanged |
| AuthManager.Session.SaveAuthResponse | Apps/iOS-macOS/VibeCreatorKit/Sources/VibeCreatorKit/API/AuthManager.swift:68-78 | the three tokens are overwritten, the user saved when sent (kept otherwise), and the session is signed in |
| AuthManager.Session.ClearSession | Apps/iOS-macOS/VibeCreatorKit/Sources/VibeCreatorKit/API/AuthManager.swift:98-106 | all three tokens and the stored user are removed, no user is current, and the session is signed out; other keys stay |
| AuthManager.Session.RefreshAccessToken | Apps/iOS-macOS/VibeCreatorKit/Sources/VibeCreatorKit/API/AuthManager.swift:109-116 | without a refresh token nothing is requested and it fails unauthorized; a successful refresh saves the response's tokens and, when it carries one, its user as current and stored; a failure changes neither tokens, sign-in nor user and reports the error |
| AuthManager.RelaunchAfterClearOrSave | Apps/iOS-macOS/VibeCreatorKit/Sources/VibeCreatorKit/API/AuthManager.swift:60-65 | a cleared session relaunches signed out; a saved one relaunches signed in exactly when its access token is non-empty |
| KitConfiguration.ApiConfiguration.constructor | Apps/iOS-macOS/VibeCreatorKit/Sources/VibeCreatorKit/VibeCreatorKit.swift:24-28 | a fresh configuration has an empty URL and key and is not configured |
| KitConfiguration.ApiConfiguration.Configure | Apps/iOS-macOS/VibeCreatorKit/Sources/VibeCreatorKit/VibeCreatorKit.swift:12-17 | `configure` sets the URL, replaces the key only when one is given, and leaves the configured flag |
| KitConfiguration.ApiConfiguration.Validate | Apps/iOS-macOS/VibeCreatorKit/Sources/VibeCreatorKit/VibeCreatorKit.swift:30-34 | validation succeeds exactly for a non-empty URL, which marks the configuration as configured; a failure changes nothing |
| KitConfiguration.ConfigureThenValidate | Apps/iOS-macOS/VibeCreatorKit/Sources/VibeCreatorKit/VibeCreatorKit.swift:12-34 | configuring a fresh instance validates exactly when the URL is non-empty, with the given key or an empty one |
| KitConfiguration.ConfigureFresh | Apps/iOS-macOS/VibeCreatorKit/Sources/VibeCreatorKit/VibeCreatorKit.swift:12-34 | configuring and validating a fresh instance twice gives the same answer, and it is configured exactly when valid |
| ImageCache.LastOn | Apps/iOS-macOS/VibeCreatorKit/Sources/VibeCreatorKit/Utilities/ImageLoader.swift:24-32 | the last operation on a URL, or none when no operation touched it |
| ImageCache.ReplayAppend | Apps/iOS-macOS/VibeCreatorKit/Sources/VibeCreatorKit/Utilities/ImageLoader.swift:24-32 | one more insert sets the URL's entry and one more removal drops it |
| ImageCache.ReplayDecides | Apps/iOS-macOS/VibeCreatorKit/Sources/VibeCreatorKit/Utilities/ImageLoader.swift:24-32 | after a run of inserts and removals, a URL is cached exactly when its last operation was an insert, with that insert's image and bytes |
| ImageCache.ImageCache.constructor | Apps/iOS-macOS/VibeCreatorKit/Sources/VibeCreatorKit/Utilities/ImageLoader.swift:11-14 | a new cache is empty |
| ImageCache.ImageCache.ImageFor | Apps/iOS-macOS/VibeCreatorKit/Sources/VibeCreatorKit/Utilities/ImageLoader.swift:16-18 | `image(for:)` gives the cached image exactly when the URL is cached |
| ImageCache.ImageCache.DataFor | Apps/iOS-macOS/VibeCreatorKit/Sources/VibeCreatorKit/Utilities/ImageLoader.swift:20-22 | `data(for:)` gives the cached bytes exactly when the URL is cached |
| ImageCache.ImageCache.Insert | Apps/iOS-macOS/VibeCreatorKit/Sources/VibeCreatorKit/Utilities/ImageLoader.swift:24-27 | both entries for the URL are set and every other URL is untouched |
| ImageCache.ImageCache.RemoveImage | Apps/iOS-macOS/VibeCreatorKit/Sources/VibeCreatorKit/Utilities/ImageLoader.swift:29-32 | the URL leaves both dictionaries and nothing else changes |
| ImageCache.ImageCache.ClearCache | Apps/iOS-macOS/VibeCreatorKit/Sources/VibeCreatorKit/Utilities/ImageLoader.swift:34-37 | both dictionaries are emptied |
| ImageCache.CacheFollowsLastOp | Apps/iOS-macOS/VibeCreatorKit/Sources/VibeCreatorKit/Utilities/ImageLoader.swift:16-32 | what the cache answers for a URL is decided by its last insert or removal since the cache was created or cleared |
| CalendarView.PostsForDate | Apps/iOS-macOS/VibeCreator/Views/Calendar/CalendarView.swift:504-510 | exactly the posts whose effective date falls on the day, no more than there are posts |
| CalendarView.PostsForDateAppend | Apps/iOS-macOS/VibeCreator/Views/Calendar/CalendarView.swift:504-510 | filtering a concatenation is concatenating the filtered parts, so input order is kept |
| CalendarView.PostsForDateSingle | Apps/iOS-macOS/VibeCreator/Views/Calendar/CalendarView.swift:504-510 | a single post is kept exactly when it is on the day, and an undated post never |
| CalendarView.FirstOfMonth | Apps/iOS-macOS/VibeCreator/Views/Calendar/CalendarView.swift:460 | the first of the month is a valid date on day 1 |
| CalendarView.LeadingCount | Apps/iOS-macOS/VibeCreator/Views/Calendar/CalendarView.swift:461-465 | the number of leading days is `(weekday(startOfMonth) - firstWeekday) mod 7`, in 0..6 |
| CalendarView.MonthLength | Apps/iOS-macOS/VibeCreator/Views/Calendar/CalendarView.swift:473 | a month has 28 to 31 days |
| CalendarView.LeadingCells | Apps/iOS-macOS/VibeCreator/Views/Calendar/CalendarView.swift:467-470 | the `lead` days before the first, in ascending order, outside the month, never today, each with its posts |
| CalendarView.MonthCells | Apps/iOS-macOS/VibeCreator/Views/Calendar/CalendarView.swift:473-479 | one cell per day of the month in order, in the month, today exactly on today's date, each with its posts |
| CalendarView.LastSecondOfMonth | Apps/iOS-macOS/VibeCreator/Views/Calendar/CalendarView.swift:484 | the end of the month is a valid instant |
| CalendarView.TrailingCells | Apps/iOS-macOS/VibeCreator/Views/Calendar/CalendarView.swift:485-489 | the `count` days after the month's end, outside the month, never today, each with its posts |
| CalendarView.TrailingCount | Apps/iOS-macOS/VibeCreator/Views/Calendar/CalendarView.swift:482 | the grid is filled with 5 to 14 trailing days |
| CalendarView.MonthGrid | Apps/iOS-macOS/VibeCreator/Views/Calendar/CalendarView.swift:459-490 | the month grid has exactly 42 cells, each a valid instant carrying its day's posts |
| CalendarView.WeekGrid | Apps/iOS-macOS/VibeCreator/Views/Calendar/CalendarView.swift:491-499 | the week grid has exactly 7 cells |
| CalendarView.AddDaysWithinMonth | Apps/iOS-macOS/VibeCreator/Views/Calendar/CalendarView.swift:475 | stepping `j` days from the first stays in the month, on day `j + 1` |
| CalendarView.MonthGridDates | Apps/iOS-macOS/VibeCreator/Views/Calendar/CalendarView.swift:459-490 | cell `k` falls `k - lead` days after the first of the month |
| CalendarView.MonthGridShape | Apps/iOS-macOS/VibeCreator/Views/Calendar/CalendarView.swift:467-490 | each cell's date is the day after the previous cell's |
| CalendarView.MonthGridStartsOnWeekday | Apps/iOS-macOS/VibeCreator/Views/Calendar/CalendarView.swift:461-470 | the grid starts on the calendar's first weekday |
| CalendarView.StepBackToWeekday | Apps/iOS-macOS/VibeCreator/Views/Calendar/CalendarView.swift:464-468 | stepping back the leading count from the first lands on the first weekday |
| CalendarView.MonthGridDistinct | Apps/iOS-macOS/VibeCreator/Views/Calendar/CalendarView.swift:467-490 | cells are consecutive day numbers, so no two cells fall on the same day |
| CalendarView.DaysApart | Apps/iOS-macOS/VibeCreator/Views/Calendar/CalendarView.swift:467-490 | two dates `x` and `y` days from the same date are `y - x` days apart |
| CalendarView.MonthGridFlags | Apps/iOS-macOS/VibeCreator/Views/Calendar/CalendarView.swift:467-490 | a cell is in the month exactly in the middle block, where it is midnight of its day and today exactly on today; cells outside the month are never today |
| CalendarView.MonthDayAppearsOnce | Apps/iOS-macOS/VibeCreator/Views/Calendar/CalendarView.swift:473-479 | every day of the month appears in exactly one cell, in the month |
| CalendarView.MonthGridPosts | Apps/iOS-macOS/VibeCreator/Views/Calendar/CalendarView.swift:469-510 | a cell holds exactly the posts dated on its day, and a post is in at most one cell |
| CalendarView.FebruaryTrailsTwoWeeks | Apps/iOS-macOS/VibeCreator/Views/Calendar/CalendarView.swift:482-489 | February 2026 from a Monday has no leading days and 14 trailing ones, ending on 14 March at 23:59:59 |
| CalendarView.FebruaryFirstPlus41 | Apps/iOS-macOS/VibeCreator/Views/Calendar/CalendarView.swift:482-489 | 41 days after 1 February 2026 is 14 March 2026 |
| CalendarView.WeekGridShape | Apps/iOS-macOS/VibeCreator/Views/Calendar/CalendarView.swift:493-498 | the week starts on the Monday at most six days back, its 7 cells are consecutive midnights in the month, today exactly on today |
| CalendarView.ShiftPeriod | Apps/iOS-macOS/VibeCreator/Views/Calendar/CalendarView.swift:432-448 | a week step moves exactly 7 days and a month step exactly one month, keeping the time of day |
| CalendarView.ShiftPeriodRoundTrip | Apps/iOS-macOS/VibeCreator/Views/Calendar/CalendarView.swift:432-448 | next then previous restores the date in week mode, and in month mode for days up to the 28th |
| CalendarView.ShiftPeriodClampsJanuary | Apps/iOS-macOS/VibeCreator/Views/Calendar/CalendarView.swift:432-448 | in month mode 31 January 2025 goes forward and back to 28 January |
| CalendarView.AppendLeadingDays | Apps/iOS-macOS/VibeCreator/Views/Calendar/CalendarView.swift:467-470 | the loop appends exactly the leading cells |
| CalendarView.AppendMonthDays | Apps/iOS-macOS/VibeCreator/Views/Calendar/CalendarView.swift:473-479 | the loop appends exactly the month's cells |
| CalendarView.AppendTrailingDays | Apps/iOS-macOS/VibeCreator/Views/Calendar/CalendarView.swift:485-489 | the loop appends exactly the trailing cells |
| CalendarView.BuildMonthDays | Apps/iOS-macOS/VibeCreator/Views/Calendar/CalendarView.swift:459-490 | the three loops build exactly the month grid |
| CalendarView.BuildWeekDays | Apps/iOS-macOS/VibeCreator/Views/Calendar/CalendarView.swift:493-498 | the loop builds exactly the week grid |
| CalendarView.CalendarViewModel.constructor | Apps/iOS-macOS/VibeCreator/Views/Calendar/CalendarView.swift:397-403 | a new model shows today's month with no days, no posts, not loading and no error |
| CalendarView.CalendarViewModel.GenerateCalendarDays | Apps/iOS-macOS/VibeCreator/Views/Calendar/CalendarView.swift:455-502 | the days become the grid of the current view type |
| CalendarView.CalendarViewModel.LoadCalendar | Apps/iOS-macOS/VibeCreator/Views/Calendar/CalendarView.swift:419-430 | on success the posts are replaced and the grid rebuilt; on failure the error is set and posts and days are unchanged; loading ends either way |
| CalendarView.CalendarViewModel.PreviousPeriod | Apps/iOS-macOS/VibeCreator/Views/Calendar/CalendarView.swift:432-439 | the date moves one period back |
| CalendarView.CalendarViewModel.NextPeriod | Apps/iOS-macOS/VibeCreator/Views/Calendar/CalendarView.swift:441-448 | the date moves one period forward |
| CalendarView.CalendarViewModel.GoToToday | Apps/iOS-macOS/VibeCreator/Views/Calendar/CalendarView.swift:450-453 | the date becomes now |
| Selection.IndexOfSame | Apps/iOS-macOS/VibeCreator/Views/Posts/CreatePostView.swift:383 | the first position holding an element equal to the given one, or the length when there is none; no earlier position holds an equal element |
| Selection.ToggleTwiceRestores | Apps/iOS-macOS/VibeCreator/Views/Posts/CreatePostView.swift:382-388 | toggling an unselected element appends it, and toggling it again gives back the original selection |
| Selection.ToggleFlips | Apps/iOS-macOS/VibeCreator/Views/Posts/CreatePostView.swift:382-388 | after a toggle the element is selected exactly when it was not selected before |
| Selection.ToggleKeepsDistinct | Apps/iOS-macOS/VibeCreator/Views/Posts/CreatePostView.swift:382-388 | a toggle keeps a selection free of duplicates |
| Selection.ToggleKeepsOthers | Apps/iOS-macOS/VibeCreator/Views/Posts/CreatePostView.swift:382-388 | a toggle neither adds nor removes any element that is not equal to the toggled one |
| Selection.RemoveAll | Apps/iOS-macOS/VibeCreator/Views/Posts/CreatePostView.swift:398-400 | removeAll(where:) keeps exactly the elements that are not dropped, and changes nothing when none is dropped |
| Selection.RemoveAllAppend | Apps/iOS-macOS/VibeCreator/Views/Posts/CreatePostView.swift:398-400 | removal works element by element, so the survivors keep their order |
| Selection.ReplaceFirst | Apps/iOS-macOS/VibeCreator/Views/Accounts/AccountsView.swift:378-380 | the first matching element is replaced, every other position keeps its element, and nothing changes when nothing matches |
| Selection.IdSet | Apps/iOS-macOS/VibeCreator/Views/Posts/EditPostView.swift:293-295 | an id is in the set exactly when some element of the list carries it |
| Selection.IdSetOfPermutation | Apps/iOS-macOS/VibeCreator/Views/Posts/EditPostView.swift:291-296 | reordering a list does not change its set of ids |
| Selection.RemoveAtIdSet | Apps/iOS-macOS/VibeCreator/Views/Posts/CreatePostView.swift:383-384 | in a list without duplicate ids, removing one position removes exactly that element's id |
| Selection.AppendIdSet | Apps/iOS-macOS/VibeCreator/Views/Posts/CreatePostView.swift:386 | appending adds exactly the new element's id |
| Selection.ToggleIdSet | Apps/iOS-macOS/VibeCreator/Views/Posts/CreatePostView.swift:382-388 | when elements compare by id, a toggle removes the id if it was selected and adds it otherwise |
| Selection.RemoveAllIdSet | Apps/iOS-macOS/VibeCreator/Views/Posts/CreatePostView.swift:398-400 | removing every element with an id removes exactly that id from the id set |
| PostComposer.MinCharacterLimit | Apps/iOS-macOS/VibeCreator/Views/Posts/CreatePostView.swift:357-359 | no limit when no account is selected; otherwise the limit of some selected account, no larger than any selected account's limit |
| PostComposer.OverLimitIff | Apps/iOS-macOS/VibeCreator/Views/Posts/CreatePostView.swift:361-364 | the text is over the limit exactly when its character count exceeds some selected account's limit; with Twitter/X selected the limit is 280 |
| PostComposer.ScalarsBoundCharacters | Apps/iOS-macOS/VibeCreator/Views/Posts/CreatePostView.swift:361-364 | a text within every limit counted in scalars is within it counted in characters, and is judged alike when each character is one scalar |
| PostComposer.RefetchedTagIsAnother | Apps/iOS-macOS/VibeCreatorKit/Sources/VibeCreatorKit/Models/Tag.swift:7-13 | a tag fetched again with a new `updatedAt` is a different tag to the selection, so toggling it adds it beside the old copy |
| PostComposer.AccountIds | Apps/iOS-macOS/VibeCreator/Views/Posts/CreatePostView.swift:428 | the selected accounts' ids, one per account, in selection order |
| PostComposer.MediaIds | Apps/iOS-macOS/VibeCreator/Views/Posts/CreatePostView.swift:423 | the selected media ids, one per item, in order |
| PostComposer.TagIds | Apps/iOS-macOS/VibeCreator/Views/Posts/CreatePostView.swift:430 | the selected tag ids, one per tag, in order |
| PostComposer.VersionsFor | Apps/iOS-macOS/VibeCreator/Views/Posts/CreatePostView.swift:419-425 | one version per selected account, in order, each with that account's id, the text block and every selected media id |
| PostComposer.BuildRequest | Apps/iOS-macOS/VibeCreator/Views/Posts/CreatePostView.swift:427-439 | the request carries the versions and the account and tag ids; it has a date and a time exactly when a schedule is given |
| PostComposer.RequestBodyCarriesSelection | Apps/iOS-macOS/VibeCreator/Views/Posts/CreatePostView.swift:415-439 | the JSON body hands the server the selected ids and per-version content, and the date and time it sends parse back to the scheduled day, hour and minute |
| CreatePostView.CreatePostViewModel.constructor | Apps/iOS-macOS/VibeCreator/Views/Posts/CreatePostView.swift:346-355 | starts empty, not loading, with no date and no error |
| CreatePostView.CreatePostViewModel.LoadAccounts | Apps/iOS-macOS/VibeCreator/Views/Posts/CreatePostView.swift:366-372 | on success the accounts are replaced; on failure the accounts stay and the error message is set; nothing else changes |
| CreatePostView.CreatePostViewModel.LoadTags | Apps/iOS-macOS/VibeCreator/Views/Posts/CreatePostView.swift:374-380 | on success the available tags are replaced; a failure changes nothing and sets no error |
| CreatePostView.CreatePostViewModel.ToggleAccount | Apps/iOS-macOS/VibeCreator/Views/Posts/CreatePostView.swift:382-388 | the selected accounts become their toggle by id; nothing else changes |
| CreatePostView.CreatePostViewModel.ToggleTag | Apps/iOS-macOS/VibeCreator/Views/Posts/CreatePostView.swift:390-396 | the selected tags become their toggle by full equality, timestamps included; nothing else changes |
| CreatePostView.CreatePostViewModel.RemoveMedia | Apps/iOS-macOS/VibeCreator/Views/Posts/CreatePostView.swift:398-400 | every selected media item with that id is removed; nothing else changes |
| CreatePostView.CreatePostViewModel.SavePost | Apps/iOS-macOS/VibeCreator/Views/Posts/CreatePostView.swift:415-446 | sends the request built from the selection, with the date only when scheduling; loading ends false; a failure sets the error |
| CreatePostView.CreatePostViewModel.SaveDraft | Apps/iOS-macOS/VibeCreator/Views/Posts/CreatePostView.swift:402-404 | a draft never carries a date or a time; loading ends, a failure sets the error, and the text, selections, loaded lists and date stay |
| CreatePostView.CreatePostViewModel.SchedulePost | Apps/iOS-macOS/VibeCreator/Views/Posts/CreatePostView.swift:406-408 | the request carries a date exactly when one is set; loading ends, a failure sets the error, and the text, selections, loaded lists and date stay |
| CreatePostView.CreatePostViewModel.PublishNow | Apps/iOS-macOS/VibeCreator/Views/Posts/CreatePostView.swift:410-413 | schedules for the current instant and sends its formatted date and time; the text, selections and loaded lists stay |
| EditPostView.ReorderingIsNoChange | Apps/iOS-macOS/VibeCreator/Views/Posts/EditPostView.swift:291-296 | a selection is unchanged against its own snapshot, and reordering the selected accounts, media or tags never turns a change on or off |
| EditPostView.ToggleAccountIsChange | Apps/iOS-macOS/VibeCreator/Views/Posts/EditPostView.swift:291-296 | from an unchanged editor, toggling an account is a change, and toggling a newly added account back removes the change |
| EditPostView.RemoveOriginalMediaIsChange | Apps/iOS-macOS/VibeCreator/Views/Posts/EditPostView.swift:291-296 | from an unchanged editor, removing media the post had removes exactly that id and is a change |
| EditPostView.ScheduleSectionChoices | Apps/iOS-macOS/VibeCreator/Views/Posts/EditPostView.swift:205-232 | at most one of "Change" and "Schedule for later" is offered, neither for a published or failed post, and a draft always gets one; only a failed post can be retried |
| EditPostView.EditPostViewModel.constructor | Apps/iOS-macOS/VibeCreator/Views/Posts/EditPostView.swift:307-318 | the editor starts from the post's text, date, media, tags and accounts, with a snapshot of exactly these, so it reports no change |
| EditPostView.EditPostViewModel.LoadData | Apps/iOS-macOS/VibeCreator/Views/Posts/EditPostView.swift:320-327 | tags are replaced only after the accounts arrived; the first failure becomes the error message; the selection and snapshot stay |
| EditPostView.EditPostViewModel.ToggleAccount | Apps/iOS-macOS/VibeCreator/Views/Posts/EditPostView.swift:329-335 | the selected accounts become their toggle by id; nothing else changes |
| EditPostView.EditPostViewModel.ToggleTag | Apps/iOS-macOS/VibeCreator/Views/Posts/EditPostView.swift:337-343 | the selected tags become their toggle by full equality, timestamps included; nothing else changes |
| EditPostView.EditPostViewModel.RemoveMedia | Apps/iOS-macOS/VibeCreator/Views/Posts/EditPostView.swift:345-347 | every selected media item with that id is removed; nothing else changes |
| EditPostView.EditPostViewModel.SaveChanges | Apps/iOS-macOS/VibeCreator/Views/Posts/EditPostView.swift:349-372 | sends the update for the post's id, built from the selection and never carrying a date or a time; loading ends false; a failure sets the error; the selection, loaded lists and snapshot stay |
| EditPostView.EditPostViewModel.Reschedule | Apps/iOS-macOS/VibeCreator/Views/Posts/EditPostView.swift:374-385 | without a date nothing is sent and loading stays as it was; otherwise the post's id and the date are sent; the selection, loaded lists and snapshot stay |
| EditPostView.EditPostViewModel.RetryPublish | Apps/iOS-macOS/VibeCreator/Views/Posts/EditPostView.swift:387-390 | reschedules the post for the current instant; the selection, loaded lists and snapshot stay |
| EditPostView.EditPostViewModel.DuplicatePost | Apps/iOS-macOS/VibeCreator/Views/Posts/EditPostView.swift:392-401 | asks to copy the post's id; the selection, loaded lists and snapshot stay; a failure sets the error |
| EditPostView.EditPostViewModel.DeletePost | Apps/iOS-macOS/VibeCreator/Views/Posts/EditPostView.swift:403-412 | asks to delete the post's id; the selection, loaded lists and snapshot stay; a failure sets the error |
| PostsListView.KeywordParameter | Apps/iOS-macOS/VibeCreator/Views/Posts/PostsListView.swift:320 | an empty search field sends no keyword; otherwise the keyword itself |
| PostsListView.ChipTap | Apps/iOS-macOS/VibeCreator/Views/Posts/PostsListView.swift:78 | tapping the selected status chip clears the filter and tapping any other chip selects that status |
| PostsListView.ChipTapTwice | Apps/iOS-macOS/VibeCreator/Views/Posts/PostsListView.swift:78 | two taps on one chip restore the filter when that chip was selected and otherwise leave no filter |
| PostsListView.PostsListViewModel.constructor | Apps/iOS-macOS/VibeCreator/Views/Posts/PostsListView.swift:294-303 | an empty list on page 1 of 1 with no filter, no keyword, not loading and no error |
| PostsListView.PostsListViewModel.LoadPosts | Apps/iOS-macOS/VibeCreator/Views/Posts/PostsListView.swift:309-327 | asks for page 1 under the current filters; on success the list is that page and the last page comes from its meta; on failure the list stays and the error is set |
| PostsListView.PostsListViewModel.LoadMorePosts | Apps/iOS-macOS/VibeCreator/Views/Posts/PostsListView.swift:329-349 | sends nothing when no further page exists or a load is running; otherwise asks for the next page and appends its rows in order |
| PostsListView.PostsListViewModel.FilterByStatus | Apps/iOS-macOS/VibeCreator/Views/Posts/PostsListView.swift:351-354 | sets the status filter and reloads page 1 with it: a success replaces the posts and the last page, a failure keeps them and sets the error, and loading ends |
| PostsListView.PostsListViewModel.TapStatusChip | Apps/iOS-macOS/VibeCreator/Views/Posts/PostsListView.swift:75-78 | a chip tap sets the filter as the chip rule says and reloads page 1, with the success and failure states of the reload |
| PostsListView.PostsListViewModel.ClearFilters | Apps/iOS-macOS/VibeCreator/Views/Posts/PostsListView.swift:356-362 | removes every filter and the keyword, then reloads page 1 with no parameters, with the success and failure states of the reload |
| PostsListView.PostsListViewModel.DeletePost | Apps/iOS-macOS/VibeCreator/Views/Posts/PostsListView.swift:364-371 | on success every post with that id leaves the list; on failure the list stays and the error is set |
| PostsListView.PostsListViewModel.DuplicatePost | Apps/iOS-macOS/VibeCreator/Views/Posts/PostsListView.swift:373-380 | on success the new post goes first, in front of the unchanged list; on failure the error is set |
| PostsListView.DeleteRemovesExactlyThatPost | Apps/iOS-macOS/VibeCreator/Views/Posts/PostsListView.swift:364-371 | after a delete a post is listed exactly when it was listed before and has another id |
| PostsListView.LoadedPagesArePrefix | Apps/iOS-macOS/VibeCreator/Views/Posts/PostsListView.swift:329-349 | loading page 1 and then pages 2 to n leaves exactly the first n pages' rows in the server's order, and more pages are offered exactly while rows remain |
| MediaLibraryView.ToggleId | Apps/iOS-macOS/VibeCreator/Views/Media/MediaLibraryView.swift:260-266 | the tapped id is selected exactly when it was not, and every other id keeps its state |
| MediaLibraryView.ToggleIdTwice | Apps/iOS-macOS/VibeCreator/Views/Media/MediaLibraryView.swift:260-266 | tapping the same upload twice gives the selection back |
| MediaLibraryView.PickSelected | Apps/iOS-macOS/VibeCreator/Views/Media/MediaLibraryView.swift:540 | the picker hands back exactly the uploads whose id is selected, never more than the uploads |
| MediaLibraryView.DeleteRemovesSelectedIds | Apps/iOS-macOS/VibeCreator/Views/Media/MediaLibraryView.swift:633-640 | after a delete the uploads' ids are the former ids less the deleted ones |
| MediaLibraryView.PickSelectedIds | Apps/iOS-macOS/VibeCreator/Views/Media/MediaLibraryView.swift:540 | picking the uploads whose id is selected, when every selected id is an upload's, yields exactly the selected ids |
| MediaLibraryView.SeedThenDone | Apps/iOS-macOS/VibeCreator/Views/Media/MediaLibraryView.swift:539-549 | opening the picker on a post's media and pressing "Done" at once hands back media with the same ids, and "Done" is enabled when the post had media |
| MediaLibraryView.MediaLibraryViewModel.constructor | Apps/iOS-macOS/VibeCreator/Views/Media/MediaLibraryView.swift:565-572 | no uploads, stock photos or GIFs, nothing loading and no error |
| MediaLibraryView.MediaLibraryViewModel.LoadUploads | Apps/iOS-macOS/VibeCreator/Views/Media/MediaLibraryView.swift:574-584 | on success the uploads are replaced; on failure they stay and the error is set; loading ends false |
| MediaLibraryView.MediaLibraryViewModel.SearchStock | Apps/iOS-macOS/VibeCreator/Views/Media/MediaLibraryView.swift:586-598 | an empty query sends nothing and changes nothing; otherwise the stock results are replaced on success or the error is set |
| MediaLibraryView.MediaLibraryViewModel.SearchGifs | Apps/iOS-macOS/VibeCreator/Views/Media/MediaLibraryView.swift:600-612 | an empty query sends nothing and changes nothing; otherwise the GIF results are replaced on success or the error is set |
| MediaLibraryView.MediaLibraryViewModel.DownloadThenReload | Apps/iOS-macOS/VibeCreator/Views/Media/MediaLibraryView.swift:617-620 | a failed download only sets the error; a successful one reloads the uploads |
| MediaLibraryView.MediaLibraryViewModel.DownloadStockPhoto | Apps/iOS-macOS/VibeCreator/Views/Media/MediaLibraryView.swift:614-622 | a photo without a download URL is ignored; otherwise that URL is fetched and the uploads reloaded, loading ending after the reload |
| MediaLibraryView.MediaLibraryViewModel.DownloadGif | Apps/iOS-macOS/VibeCreator/Views/Media/MediaLibraryView.swift:624-631 | the GIF's own URL is fetched; a failure sets the error and leaves loading as it was, a success reloads the uploads and loading ends |
| MediaLibraryView.MediaLibraryViewModel.DeleteSelected | Apps/iOS-macOS/VibeCreator/Views/Media/MediaLibraryView.swift:633-640 | when the server accepts, exactly the uploads whose id was deleted leave the list, in order; on failure the list stays and the error is set |
| MediaLibraryView.MediaLibraryScreen.constructor | Apps/iOS-macOS/VibeCreator/Views/Media/MediaLibraryView.swift:8-13 | the uploads tab, no search text and no selection |
| MediaLibraryView.MediaLibraryScreen.ToggleSelection | Apps/iOS-macOS/VibeCreator/Views/Media/MediaLibraryView.swift:260-266 | the selection becomes its toggle by the tapped id |
| MediaLibraryView.MediaLibraryScreen.DeleteTapped | Apps/iOS-macOS/VibeCreator/Views/Media/MediaLibraryView.swift:73-77 | the delete button deletes the selected ids and clears the selection |
| MediaLibraryView.MediaLibraryScreen.PerformSearch | Apps/iOS-macOS/VibeCreator/Views/Media/MediaLibraryView.swift:268-277 | a search is sent only from the stock or GIF tab with a non-empty text, and only that tab's results change |
| MediaLibraryView.MediaPicker.constructor | Apps/iOS-macOS/VibeCreator/Views/Media/MediaLibraryView.swift:501-506 | no uploads and no selection |
| MediaLibraryView.MediaPicker.Appear | Apps/iOS-macOS/VibeCreator/Views/Media/MediaLibraryView.swift:546-549 | loads the uploads and then selects the ids of the media the post already has |
| MediaLibraryView.MediaPicker.ToggleSelection | Apps/iOS-macOS/VibeCreator/Views/Media/MediaLibraryView.swift:553-559 | the selection becomes its toggle by the media id |
| MediaLibraryView.MediaPicker.Done | Apps/iOS-macOS/VibeCreator/Views/Media/MediaLibraryView.swift:538-543 | nothing while the selection is empty; otherwise exactly the uploads whose id is selected, in upload order |
| AccountsView.ProviderItemsOfferEachOnce | Apps/iOS-macOS/VibeCreator/Views/Accounts/AccountsView.swift:250-255 | the add-account sheet lists every provider exactly once, in the providers' declared order |
| AccountsView.ProviderDescriptionsDistinct | Apps/iOS-macOS/VibeCreator/Views/Accounts/AccountsView.swift:313-324 | every provider has a non-empty description and no two providers share one |
| AccountsView.AccountsViewModel.constructor | Apps/iOS-macOS/VibeCreator/Views/Accounts/AccountsView.swift:359-362 | no accounts, not loading and no error |
| AccountsView.AccountsViewModel.LoadAccounts | Apps/iOS-macOS/VibeCreator/Views/Accounts/AccountsView.swift:364-373 | on success the accounts are replaced; on failure they stay and the error is set; loading ends false |
| AccountsView.AccountsViewModel.RefreshAccount | Apps/iOS-macOS/VibeCreator/Views/Accounts/AccountsView.swift:375-384 | on success the server's account takes the place of the first account with that id; on failure the list stays and the error is set |
| AccountsView.AccountsViewModel.DeleteAccount | Apps/iOS-macOS/VibeCreator/Views/Accounts/AccountsView.swift:386-393 | on success every account with that id leaves the list; on failure the list stays and the error is set |
| AccountsView.RefreshKeepsIds | Apps/iOS-macOS/VibeCreator/Views/Accounts/AccountsView.swift:375-384 | a refresh keeps the list's length and its ids, and changes nothing when no account has that id |
| AccountsView.DeleteRemovesExactlyThatAccount | Apps/iOS-macOS/VibeCreator/Views/Accounts/AccountsView.swift:386-393 | after a delete an account is listed exactly when it was listed before and has another id |
| AccountsView.AddAccountSheet.constructor | Apps/iOS-macOS/VibeCreator/Views/Accounts/AccountsView.swift:243-248 | not loading, no error and not dismissed |
| AccountsView.AddAccountSheet.ConnectAccount | Apps/iOS-macOS/VibeCreator/Views/Accounts/AccountsView.swift:326-353 | asks for the OAuth URL by the provider's raw value; success dismisses the sheet and failure sets the error; loading ends false |
| AccountsView.ProviderFailureShowsServerErrorText | Apps/iOS-macOS/VibeCreator/Views/Accounts/AccountsView.swift:326-353 | a generated OAuth URL comes back with 200; when the provider fails, the server's 500 carries the provider's message, yet the sheet shows the app's fixed server-error text instead |
| LoginView.RegisterValidImpliesLoginValid | Apps/iOS-macOS/VibeCreator/Views/Auth/LoginView.swift:115-120 | sign-in needs exactly an email and a password; whatever registration accepts sign-in accepts, and registration refuses a confirmation that differs from the password |
| LoginView.LoginViewModel.constructor | Apps/iOS-macOS/VibeCreator/Views/Auth/LoginView.swift:106-113 | empty fields, sign-in mode, not loading and no error, over the shared session |
| LoginView.LoginViewModel.ToggleMode | Apps/iOS-macOS/VibeCreator/Views/Auth/LoginView.swift:122-125 | switches mode and clears the error, keeping every field |
| LoginView.LoginViewModel.Submit | Apps/iOS-macOS/VibeCreator/Views/Auth/LoginView.swift:127-168 | registers with all four fields in register mode and signs in with email and password otherwise; an answer is saved into the session, an API error leaves its description and any other error the fixed message; loading ends false |
| SettingsView.PasswordChangeRule | Apps/iOS-macOS/VibeCreator/Views/Settings/SettingsView.swift:229-231 | a valid change has a current password and a non-empty new password of at least eight characters (as `String.count` counts them) equal to its confirmation, and any such triple is valid |
| SettingsView.ChangePasswordSheet.constructor | Apps/iOS-macOS/VibeCreator/Views/Settings/SettingsView.swift:221-227 | empty fields, not loading, no error and not dismissed |
| SettingsView.ChangePasswordSheet.ChangePassword | Apps/iOS-macOS/VibeCreator/Views/Settings/SettingsView.swift:268-282 | sends the three fields as typed; success dismisses the sheet and failure sets the error; loading ends false |
| SettingsView.WithAdminEmailText | Apps/iOS-macOS/VibeCreator/Views/Settings/SettingsView.swift:100-103 | writing the admin-email field changes only the admin email, and an emptied field stores no address |
| SettingsView.AdminEmailBindingRoundTrip | Apps/iOS-macOS/VibeCreator/Views/Settings/SettingsView.swift:100-103 | the field reads back what was typed, and writing back what it shows changes nothing except when an empty address was stored |
| SettingsView.Applied | Apps/iOS-macOS/VibeCreator/Views/Settings/SettingsView.swift:69-94 | a picker edit changes exactly its own field and never the admin email |
| SettingsView.SavesTriggered | Apps/iOS-macOS/VibeCreator/Views/Settings/SettingsView.swift:74-94 | at most three saves start, one per picked field, and none exactly when zone, time format and week start are all unchanged |
| SettingsView.SettingsViewModel.constructor | Apps/iOS-macOS/VibeCreator/Views/Settings/SettingsView.swift:418-421 | the default settings, not loading and no error |
| SettingsView.SettingsViewModel.LoadSettings | Apps/iOS-macOS/VibeCreator/Views/Settings/SettingsView.swift:423-432 | on success the server's settings replace the current ones; on failure they stay and the error is set; loading ends false; one save starts for each picked field the load changed |
| SettingsView.SettingsViewModel.SaveSettings | Apps/iOS-macOS/VibeCreator/Views/Settings/SettingsView.swift:434-440 | sends the current settings; on success the server's answer replaces them, on failure they stay and the error is set; one more save starts for each picked field the answer changed, none when it echoes what was sent |
| SettingsView.SettingsViewModel.Pick | Apps/iOS-macOS/VibeCreator/Views/Settings/SettingsView.swift:74-94 | a choice that changes its field is applied and sent at once, the answer replaces the settings (keeping the error) or sets the error, and the saves the answer starts in turn are counted; a choice that changes nothing sends nothing |
| SettingsView.SettingsViewModel.EditAdminEmail | Apps/iOS-macOS/VibeCreator/Views/Settings/SettingsView.swift:100-103 | typing in the admin-email field only changes the local settings |
| SettingsView.TypedEmailTravelsWithNextPick | Apps/iOS-macOS/VibeCreator/Views/Settings/SettingsView.swift:74-103 | an admin email typed and then followed by a picker change is sent along with that change |
| SettingsView.LoadingStoredSettingsSaves | Apps/iOS-macOS/VibeCreator/Views/Settings/SettingsView.swift:423-431 | loading stored settings that differ from the defaults in a picked field starts a save of what was just loaded |
| SettingsView.PickFiresOnce | Apps/iOS-macOS/VibeCreator/Views/Settings/SettingsView.swift:74-94 | a pick that changes its field starts exactly one save, and one that changes nothing starts none |
| SettingsView.ProfileViewModel.constructor | Apps/iOS-macOS/VibeCreator/Views/Settings/SettingsView.swift:446-454 | empty name, email and originals, not loading, no success and no error |
| SettingsView.ProfileViewModel.OnAppear | Apps/iOS-macOS/VibeCreator/Views/Settings/SettingsView.swift:202-205 | the form shows the signed-in user while the originals, loading, success flag and error stay, so a fresh form reports changes whenever the user has a name or an email |
| SettingsView.ProfileViewModel.UpdateProfile | Apps/iOS-macOS/VibeCreator/Views/Settings/SettingsView.swift:460-473 | sends the name and email; on success the user is saved into the session and the originals catch up so nothing is left to save; on failure the originals and the session's user stay and the error is set |

## Left out

- Concurrency: `async` calls, `Task { … }` blocks, `@MainActor` and the actor that serialises `ImageCache` are not modelled. Each call runs to completion, with its outcome given as an input. So `filterByStatus` and `clearFilters` are modelled as reloading at once.
- HTTP transport, `Alamofire` sessions, JSON decoding of responses, and keychain and `UserDefaults` I/O are not modelled. Those stores are maps; the source ignores their failures with `try?`.
- `URL(string:)`, `filter_var` URL checks, PHP's time-zone and e-mail validation, `uniqid()` and the upload's `hashName()` are parameters, because their tables belong to the platform.
- Percent-encoding of query strings is not modelled. The model states which parameters are sent and how each is spelled.
- Floating point: `humanFileSize` is modelled up to its unit choice. The number printed before the unit is not modelled.
- ReportsController.Reports: `round(x, 2)` on PHP floats is modelled as exact rounding to hundredths. The binary rounding of the float quotient is not modelled.
- ReportsController.FindAccount: an account id is found when the key is all decimal digits spelling the id. PHP's looser casting of other spellings, such as `" 7"` or `"7abc"`, is not modelled.
- ReportsController.WindowStart: `period` is taken as a whole number of days. A non-numeric or fractional `period` query string, which Carbon would coerce, is not modelled.
- ReportsController.Reports: a metric field that is present but not a number counts as 0. PHP would add numeric strings.
- Date formatting beyond `Y-m-d` and `H:i` (`HH:mm`) is not modelled. Carbon's parsing of `schedule`'s free-form `scheduled_at` is a parameter that either yields an instant or fails.
- CalendarController.RequestDate: the `date` query is read as `Y-m-d`, the form the app sends. Other spellings that `Carbon::parse` would accept are treated as unparseable.
- TagsController.TagsTable.Index: `orderBy('name')` is modelled as code-point order on the names (`Text.StrLeq`), as a binary collation sorts them. A case-insensitive collation such as MySQL's default `utf8mb4_unicode_ci` sorts differently. It lists "apple" before "Banana", where the model lists "Banana" first. The database's collation is outside the source.
- SQL `LIKE` in the keyword filter is modelled as substring search. SQL wildcards inside the keyword and the collation's case folding are not modelled.
- Soft deletion: a deleted post leaves the table and every query, and its id joins `PostsTable.trashedIds`, which `exists:mixpost_posts,id` still sees. Restoring and force-deleting posts are not modelled.
- Route-model binding of `{post}`, `{account}` and `{tag}` is taken to find only the caller's own rows. The routes in `routes/api_mobile.php` do not scope it themselves, and the binding's resolution is not part of this model.
- Request bodies reach Laravel's validator exactly as the app sends them: the host application's `TrimStrings` and `ConvertEmptyStringsToNull` middleware are not modelled. With them a blank string would arrive as null, `Validation.Skipped` would not apply, and a body such as `{"posts": [""]}` would get 422 where the model accepts it.
- ReportsController.ReportFor: serves the corrected audience summary, which reads the `count` key. As written, the source's `current`, `previous` and `follower_growth` are always 0; `ReportsController.AudienceGrowthCounterexample` under "Findings" shows that behaviour.
- ReportsController.Reports: builds each account's report with `ReportFor`, so it serves the corrected audience summary too, not the source's zeros.
- PhpValues.FilterInt: integers beyond PHP's 64-bit range are accepted. PHP refuses them.
- Pagination.ResolvePerPage: a fractional or exponent `per_page`, such as "2.5", is treated like a non-numeric one, the 500. PHP would page by the float.
- Validation.IdValues: a blank id selects no row. MySQL would compare it with 0, which no id has.
- PostsController.IndexQueryFrom: `status`, `tag_id` and `account_id` are read as whole numbers, the values the app sends. Other spellings that SQL would compare loosely are not modelled.
- PostComposer.OverLimit: `String.count`, the number of grapheme clusters, is the parameter `count`. The model does not segment text itself; `PostComposer.ScalarsBoundCharacters` relates it to the scalar length. `SettingsView.PasswordChangeValid` takes the same parameter.
- TagModels.TrimNonAlnum: tests ASCII letters and digits only. `CharacterSet.alphanumerics` also holds letters and digits of other scripts. `ChannelsOf` uses the scalar length where Swift's `hex.count` counts characters. The two differ only outside ASCII; the predefined colours are ASCII.
- SettingsView.SettingsViewModel.Pick: the saves the pickers' `onChange` handlers start run as separate tasks. The model counts them (`SavesTriggered`) but does not run or interleave them.
- `PostsController` store and update hand a valid request to Mixpost's `CreatePost` and `UpdatePost` actions. Those actions are not part of this model, so the rows they create are not modelled; the validation and status codes are.
- `PostsController.show` returns the resolved post as a resource. The lookup is `PostsController.Resolve`; the resource's formatting is not modelled.
- The `links` block of paginated responses (URLs of neighbouring pages) is not modelled. The `meta` block is.
- `MediaController.searchStock` forwards the query to an external stock-photo service and reshapes its answer. It is not part of this model.
- AccountsController.MergeData: `array_merge` renumbers integer keys. The model treats the `data` column as a string-keyed map, which is what the providers return.
- Opening the OAuth URL in a browser, and the OAuth callback, are not modelled.
- `Text.Lower` lower-cases ASCII letters only. Swift's `lowercased()` also folds other scripts, which no health status uses.
- The system-status screen, `SystemStatusViewModel` and the system logs are not modelled, apart from the health classification in `Models/System.swift`. The server's `SystemController`, which probes the database, queues and disks, is not part of this model.
- Number formatting for display (`formatNumber`, `DashboardView`) and image decoding (`ImageLoader.load`) are not modelled.
- SwiftUI layout, colours, icons and navigation are not modelled. A button's enabled state and the actions it triggers are.

## Findings

| source | as written | input that shows it | evidently intended | confidence | as-written member | corrected member |
|---|---|---|---|---|---|---|
| Apps/iOS-macOS/VibeCreatorKit/Sources/VibeCreatorKit/Models/Calendar.swift:105-107 | `CalendarDay.hash(into:)` hashes the full instant, while `==` compares calendar days only | two cells for the same day, one at midnight and one at 23:59:59: equal, yet different hashes | hash the start of the day, so equal cells hash alike as `Hashable` requires | not executed | CalendarModels.DayHashAsWrittenDisagreesWithEquality | CalendarModels.DayHashAgreesWithEquality |
| src/Http/Controllers/Api/Mobile/ReportsController.php:68-69 | the audience history holds arrays, but `last()?->count` and `first()?->count` read an object property, which gives null and so 0 | a history whose counts go from 100 to 150: `current`, `previous` and `follower_growth` are all 0 | read the `count` key, so the counts are the latest and earliest totals and the growth is 50 | not executed | ReportsController.AudienceGrowthCounterexample | ReportsController.AudienceSummary |
