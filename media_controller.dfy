/** `MediaController` of the mobile API over an in-memory table of media rows
    and the set of files on the storage disks. The upload's stored name, the
    `uniqid()` of a download, what the remote server and the disk report, and
    whether a string is a URL are all parameters. */
module MediaController {
  import opened Wrappers
  import opened JsonValues
  import opened Text
  import opened Sorting
  import opened Pagination
  import opened Validation
  import opened PhpValues

  /** A row of `mixpost_media`; `sizeUnit` is the unit part of
      `size_readable`. */
  datatype ServerMedia = ServerMedia(
    id: int,
    userId: int,
    name: string,
    mimeType: string,
    disk: Option<string>,
    path: Option<string>,
    size: nat,
    sizeUnit: string,
    createdAt: int)

  /** A file on a storage disk. */
  datatype StoredFile = StoredFile(disk: string, path: string)

  /** `config('mixpost.disk', 'public')` at its default. */
  const Disk := "public"
  const MediaDirectory := "mixpost-media/"

  // ---------------------------------------------------------------------
  // humanFileSize

  const SizeUnits: seq<string> := ["B", "KB", "MB", "GB", "TB"]

  /** `floor((strlen($bytes) - 1) / 3)`: the unit is chosen by the number
      of decimal digits, three per step. */
  function UnitIndex(bytes: nat): nat {
    (NumDigits(bytes) - 1) / 3
  }

  /** The unit `humanFileSize` prints; `None` where `$size[$factor]` names
      no unit, an undefined-index error that Laravel raises as an
      exception. */
  function SizeUnit(bytes: nat): (u: Option<string>)
    ensures u.Some? <==> UnitIndex(bytes) < 5
    ensures u.Some? ==> u.value == SizeUnits[UnitIndex(bytes)]
  {
    if UnitIndex(bytes) < 5 then Some(SizeUnits[UnitIndex(bytes)]) else None
  }

  /** The unit index is `k` exactly when the size lies in the `k`-th block
      of three decades: 10^(3k) up to 10^(3k+3). */
  lemma UnitIndexBounds(bytes: nat, k: nat)
    ensures UnitIndex(bytes) == k <==> (k == 0 || Pow10(3 * k) <= bytes) && bytes < Pow10(3 * k + 3)
  {
    var d := NumDigits(bytes);
    NumDigitsBounds(bytes);
    if UnitIndex(bytes) == k {
      assert 3 * k + 1 <= d <= 3 * k + 3;
      Pow10Monotone(d, 3 * k + 3);
      if k > 0 {
        Pow10Monotone(3 * k, d - 1);
      }
    }
    if (k == 0 || Pow10(3 * k) <= bytes) && bytes < Pow10(3 * k + 3) {
      if d > 3 * k + 3 {
        Pow10Monotone(3 * k + 3, d - 1);
      }
      if k > 0 && d < 3 * k + 1 {
        Pow10Monotone(d, 3 * k);
      }
    }
  }

  lemma {:induction false} Pow10Value(k: nat)
    ensures k == 3 ==> Pow10(k) == 1000
    ensures k == 6 ==> Pow10(k) == 1000000
    ensures k == 9 ==> Pow10(k) == 1000000000
    ensures k == 12 ==> Pow10(k) == 1000000000000
    ensures k == 15 ==> Pow10(k) == 1000000000000000
    decreases k
  {
    if k > 0 {
      Pow10Value(k - 1);
      if k == 3 || k == 6 || k == 9 || k == 12 || k == 15 {
        assert Pow10(k - 1) == Pow10(k - 3) * 100 by {
          Pow10Value(k - 2);
          Pow10Value(k - 3);
        }
        Pow10Value(k - 3);
      }
    }
  }

  /** The unit by size: below 1000 bytes "B", then a unit per three decades,
      "TB" up to 10^15; from 10^15 bytes there is no unit. In particular
      1000 to 1023 bytes are reported in "KB", as less than one of them. */
  lemma SizeUnitByDecade(bytes: nat)
    ensures bytes < 1000 ==> SizeUnit(bytes) == Some("B")
    ensures 1000 <= bytes < 1000000 ==> SizeUnit(bytes) == Some("KB")
    ensures 1000000 <= bytes < 1000000000 ==> SizeUnit(bytes) == Some("MB")
    ensures 1000000000 <= bytes < 1000000000000 ==> SizeUnit(bytes) == Some("GB")
    ensures 1000000000000 <= bytes < 1000000000000000 ==> SizeUnit(bytes) == Some("TB")
    ensures SizeUnit(bytes).None? <==> bytes >= 1000000000000000
  {
    Pow10Value(3);
    Pow10Value(6);
    Pow10Value(9);
    Pow10Value(12);
    Pow10Value(15);
    UnitIndexBounds(bytes, 0);
    UnitIndexBounds(bytes, 1);
    UnitIndexBounds(bytes, 2);
    UnitIndexBounds(bytes, 3);
    UnitIndexBounds(bytes, 4);
    if bytes >= 1000000000000000 {
      var k := UnitIndex(bytes);
      UnitIndexBounds(bytes, k);
      if k < 5 {
        Pow10Monotone(3 * k + 3, 15);
      }
    }
  }

  // ---------------------------------------------------------------------
  // Rows

  /** `forCurrentUser()`, in table order. */
  function OwnedMedia(rows: seq<ServerMedia>, userId: int): (r: seq<ServerMedia>)
    ensures forall m :: m in r <==> m in rows && m.userId == userId
    ensures |r| <= |rows|
  {
    KeepMedia(rows, (m: ServerMedia) => m.userId == userId)
  }

  /** The rows that pass `keep`, in table order. */
  function KeepMedia(rows: seq<ServerMedia>, keep: ServerMedia -> bool): (r: seq<ServerMedia>)
    ensures |r| <= |rows|
    ensures forall m :: m in r <==> m in rows && keep(m)
  {
    if rows == [] then []
    else
      var init := rows[..|rows| - 1];
      var last := rows[|rows| - 1];
      assert rows == init + [last];
      KeepMedia(init, keep) + (if keep(last) then [last] else [])
  }

  /** Filtering twice is filtering once by both conditions. */
  lemma {:induction false} KeepMediaTwice(rows: seq<ServerMedia>, p: ServerMedia -> bool, q: ServerMedia -> bool, both: ServerMedia -> bool)
    requires forall m :: m in rows ==> (both(m) <==> p(m) && q(m))
    ensures KeepMedia(KeepMedia(rows, p), q) == KeepMedia(rows, both)
  {
    if rows != [] {
      var init := rows[..|rows| - 1];
      var last := rows[|rows| - 1];
      assert rows == init + [last];
      assert forall m :: m in init ==> m in rows;
      KeepMediaTwice(init, p, q, both);
      var once := KeepMedia(rows, p);
      if p(last) {
        assert once == KeepMedia(init, p) + [last];
        assert once[..|once| - 1] == KeepMedia(init, p);
      } else {
        assert once == KeepMedia(init, p);
      }
    }
  }

  /** Filters that agree on every row give the same rows. */
  lemma {:induction false} KeepMediaAgree(rows: seq<ServerMedia>, p: ServerMedia -> bool, q: ServerMedia -> bool)
    requires forall m :: m in rows ==> (p(m) <==> q(m))
    ensures KeepMedia(rows, p) == KeepMedia(rows, q)
  {
    if rows != [] {
      var init := rows[..|rows| - 1];
      assert rows == init + [rows[|rows| - 1]];
      assert forall m :: m in init ==> m in rows;
      KeepMediaAgree(init, p, q);
    }
  }

  /** A filter that keeps every row keeps the table as it is. */
  lemma {:induction false} KeepMediaAll(rows: seq<ServerMedia>, p: ServerMedia -> bool)
    requires forall m :: m in rows ==> p(m)
    ensures KeepMedia(rows, p) == rows
  {
    if rows != [] {
      var init := rows[..|rows| - 1];
      assert rows == init + [rows[|rows| - 1]];
      assert forall m :: m in init ==> m in rows;
      KeepMediaAll(init, p);
    }
  }

  /** Filtering keeps ids distinct and below any bound they were below. */
  lemma {:induction false} KeepMediaKeepsIds(rows: seq<ServerMedia>, keep: ServerMedia -> bool, bound: int)
    requires forall i :: 0 <= i < |rows| ==> rows[i].id < bound
    requires forall i, j :: 0 <= i < j < |rows| ==> rows[i].id != rows[j].id
    ensures forall i :: 0 <= i < |KeepMedia(rows, keep)| ==> KeepMedia(rows, keep)[i].id < bound
    ensures forall i, j :: 0 <= i < j < |KeepMedia(rows, keep)| ==> KeepMedia(rows, keep)[i].id != KeepMedia(rows, keep)[j].id
  {
    if rows != [] {
      var init := rows[..|rows| - 1];
      var last := rows[|rows| - 1];
      KeepMediaKeepsIds(init, keep, bound);
      var r := KeepMedia(rows, keep);
      var ri := KeepMedia(init, keep);
      assert forall i :: 0 <= i < |ri| ==> ri[i].id < bound;
      if keep(last) {
        assert r == ri + [last];
        forall i | 0 <= i < |ri|
          ensures ri[i].id != last.id
        {
          assert ri[i] in init;
          var j :| 0 <= j < |init| && init[j] == ri[i];
          assert rows[j] == init[j];
        }
        forall i | 0 <= i < |r|
          ensures r[i].id < bound
        {
          if i < |ri| {
            assert r[i] == ri[i];
          }
        }
        forall i, j | 0 <= i < j < |r|
          ensures r[i].id != r[j].id
        {
          assert r[i] == ri[i];
          if j < |ri| {
            assert r[j] == ri[j];
          }
        }
      } else {
        assert r == ri;
      }
    }
  }

  /** `latest()`: newest first. */
  predicate LatestLeq(a: ServerMedia, b: ServerMedia) {
    a.createdAt >= b.createdAt
  }

  lemma LatestIsPreorder()
    ensures TotalPreorder(LatestLeq)
  {
  }

  function MediaIds(rows: seq<ServerMedia>): set<int> {
    set i | 0 <= i < |rows| :: rows[i].id
  }

  /** `$media->disk && $media->path`: both set and neither empty nor "0". */
  predicate HasFile(m: ServerMedia) {
    m.disk.Some? && m.path.Some? && PhpTruthy(m.disk.value) && PhpTruthy(m.path.value)
  }

  function FileOf(m: ServerMedia): StoredFile
    requires HasFile(m)
  {
    StoredFile(m.disk.value, m.path.value)
  }

  /** The rows `destroy` fetches: the caller's, among the listed ids. */
  function Listed(userId: int, ids: set<int>): ServerMedia -> bool {
    (m: ServerMedia) => m.userId == userId && m.id in ids
  }

  /** The rows `destroy` keeps. */
  function Unlisted(userId: int, ids: set<int>): ServerMedia -> bool {
    (m: ServerMedia) => !(m.userId == userId && m.id in ids)
  }

  /** The files `destroy` removes from storage. */
  function FilesOf(rows: seq<ServerMedia>): (r: set<StoredFile>)
    ensures forall f :: f in r <==> exists m :: m in rows && HasFile(m) && FileOf(m) == f
  {
    set m | m in rows && HasFile(m) :: FileOf(m)
  }

  // ---------------------------------------------------------------------
  // Requests

  /** The raw `page` and `per_page` inputs; `None` is an absent key. */
  datatype PageQuery = PageQuery(page: Option<Json>, perPage: Option<Json>)

  /** The page size: 20 by default, `None` where the paginator throws. */
  function PerPage(q: PageQuery): (r: Option<int>)
    ensures q.perPage.None? ==> r == Some(20)
    ensures r.Some? ==> r.value != 0
  {
    ResolvePerPage(q.perPage)
  }

  /** The paginator's page: the requested one when the integer filter reads
      it as a positive number, else 1. */
  function CurrentPage(q: PageQuery): (n: nat)
    ensures n >= 1
    ensures q.page.Some? && IntegerValue(q.page.value).Some? && IntegerValue(q.page.value).value >= 1 ==>
      n == IntegerValue(q.page.value).value
  {
    ResolveCurrentPage(q.page)
  }

  /** What `$request->file('file')` holds: the client's file name, the
      detected MIME type and the size in bytes. */
  datatype UploadedFile = UploadedFile(clientName: string, mimeType: string, size: nat)

  /** `config('mixpost.max_file_size.video', 204800)` kilobytes. */
  const MaxFileKilobytes: nat := 204800

  /** `required|file|max:204800`: a file of at most that many kilobytes. */
  predicate UploadValid(file: Option<UploadedFile>) {
    file.Some? && file.value.size <= MaxFileKilobytes * 1024
  }

  /** Every file `upload` accepts has a unit, at most "MB". */
  lemma AcceptedUploadsHaveUnit(file: Option<UploadedFile>)
    requires UploadValid(file)
    ensures SizeUnit(file.value.size).Some?
    ensures SizeUnit(file.value.size).value in {"B", "KB", "MB"}
  {
    SizeUnitByDecade(file.value.size);
  }

  /** `required|url` on `url`. */
  predicate UrlValid(body: Json, isUrl: string -> bool) {
    var v := Field(body, "url");
    v.Some? && v.value.JStr? && !IsBlank(v.value.s) && isUrl(v.value.s)
  }

  /** What the disk reports for a stored download. */
  datatype Fetched = Fetched(mimeType: string, size: nat)

  // ---------------------------------------------------------------------
  // downloadExternal naming

  /** The characters after the last `c`; all of `s` when it has none. */
  function AfterLast(s: string, c: char): (r: string)
    ensures c !in r
    ensures |r| <= |s| && r == s[|s| - |r|..]
    ensures |r| < |s| ==> s[|s| - |r| - 1] == c
  {
    if s == [] then []
    else if s[|s| - 1] == c then []
    else AfterLast(s[..|s| - 1], c) + [s[|s| - 1]]
  }

  lemma {:induction false} AfterLastOfSuffix(s: string, c: char, t: string)
    requires c !in t
    ensures AfterLast(s + [c] + t, c) == t
    decreases |t|
  {
    if t != [] {
      var u := s + [c] + t;
      assert u[..|u| - 1] == s + [c] + t[..|t| - 1];
      AfterLastOfSuffix(s, c, t[..|t| - 1]);
    } else {
      assert (s + [c] + t)[|s|] == c;
    }
  }

  lemma {:induction false} AfterLastNone(s: string, c: char)
    requires c !in s
    ensures AfterLast(s, c) == s
    decreases |s|
  {
    if s != [] {
      assert s[|s| - 1] in s;
      AfterLastNone(s[..|s| - 1], c);
      assert s[..|s| - 1] + [s[|s| - 1]] == s;
    }
  }

  function StripTrailingSlashes(s: string): (r: string)
    ensures |r| <= |s| && r == s[..|r|]
    ensures r == [] || r[|r| - 1] != '/'
  {
    if s != [] && s[|s| - 1] == '/' then StripTrailingSlashes(s[..|s| - 1]) else s
  }

  /** PHP's `basename`: the last path component, trailing slashes ignored. */
  function Basename(path: string): string {
    AfterLast(StripTrailingSlashes(path), '/')
  }

  /** `pathinfo($name, PATHINFO_EXTENSION)`: after the last dot, or empty
      when there is none. */
  function Extension(name: string): string {
    if '.' in name then AfterLast(name, '.') else ""
  }

  /** An extension holds no dot, and no slash when the name held none. */
  lemma ExtensionChars(name: string)
    ensures '.' !in Extension(name)
    ensures '/' !in name ==> '/' !in Extension(name)
  {
  }

  /** `pathinfo(...) ?: 'jpg'`: an empty or "0" extension becomes "jpg". */
  function ExtensionOrJpg(urlPath: string): string {
    var x := Extension(Basename(urlPath));
    if PhpTruthy(x) then x else "jpg"
  }

  /** The fallback extension is a plain word. */
  lemma JpgIsPlain()
    ensures "jpg" != [] && '.' !in "jpg" && '/' !in "jpg"
  {
    assert "jpg" == ['j'] + ['p'] + ['g'];
  }

  /** The extension a download is stored with is never empty and holds no
      dot and no slash. */
  lemma ExtensionOrJpgShape(urlPath: string)
    ensures ExtensionOrJpg(urlPath) != []
    ensures '.' !in ExtensionOrJpg(urlPath) && '/' !in ExtensionOrJpg(urlPath)
  {
    var b := Basename(urlPath);
    var x := Extension(b);
    ExtensionChars(b);
    JpgIsPlain();
    assert '/' !in b;
    assert ExtensionOrJpg(urlPath) == if PhpTruthy(x) then x else "jpg";
  }

  /** `uniqid() . '.' . $extension`. */
  function StoredName(uniqueId: string, extension: string): string {
    uniqueId + "." + extension
  }

  /** Joining two slash-free words with a dot gives a slash-free name. */
  lemma JoinedWithoutSlash(u: string, e: string)
    requires '/' !in u && '/' !in e
    ensures '/' !in u + "." + e
  {
    var n := u + "." + e;
    forall i | 0 <= i < |n|
      ensures n[i] != '/'
    {
      if i < |u| {
        assert n[i] == u[i];
      } else if i > |u| {
        assert n[i] == e[i - |u| - 1];
      }
    }
  }

  /** A slash-free name is its own base name. */
  lemma BasenameOfPlainName(n: string)
    requires '/' !in n
    ensures Basename(n) == n
  {
    if n != [] {
      assert n[|n| - 1] in n;
    }
    assert StripTrailingSlashes(n) == n;
    AfterLastNone(n, '/');
  }

  /** A slash-free name is its own base name, and the extension of
      `u + "." + e` is `e` when `e` is a non-empty word free of dots. */
  lemma NameWithExtension(u: string, e: string)
    requires '/' !in u && e != [] && '.' !in e && '/' !in e
    ensures Basename(u + "." + e) == u + "." + e
    ensures Extension(u + "." + e) == e
  {
    JoinedWithoutSlash(u, e);
    BasenameOfPlainName(u + "." + e);
    assert u + "." + e == u + ['.'] + e;
    assert (u + ['.'] + e)[|u|] == '.';
    AfterLastOfSuffix(u, '.', e);
  }

  /** The name a download is stored under is its own base name and its
      extension is the one taken from the URL (or "jpg"), whatever the id,
      provided the id holds no slash as `uniqid()` never does. */
  lemma StoredNameKeepsExtension(uniqueId: string, urlPath: string)
    requires '/' !in uniqueId
    ensures var n := StoredName(uniqueId, ExtensionOrJpg(urlPath));
      Basename(n) == n && Extension(Basename(n)) == ExtensionOrJpg(urlPath)
  {
    ExtensionOrJpgShape(urlPath);
    NameWithExtension(uniqueId, ExtensionOrJpg(urlPath));
  }

  /** The extension of a path whose last component is `dir + "/" + file`
      with `file` free of slashes and not empty. */
  lemma ExtensionOfFile(dir: string, file: string)
    requires '/' !in file && file != []
    ensures ExtensionOrJpg(dir + "/" + file) == (if PhpTruthy(Extension(file)) then Extension(file) else "jpg")
  {
    var p := dir + "/" + file;
    assert p == dir + ['/'] + file;
    assert p[|p| - 1] == file[|file| - 1] && file[|file| - 1] in file;
    assert StripTrailingSlashes(p) == p;
    AfterLastOfSuffix(dir, '/', file);
  }

  /** The extension of a URL ending in `/base.ext`: `ext`, or "jpg" where
      PHP reads `ext` as false. */
  lemma ExtensionOfUrl(dir: string, base: string, ext: string)
    requires '/' !in base && ext != [] && '.' !in ext && '/' !in ext
    ensures ExtensionOrJpg(dir + "/" + (base + "." + ext)) == (if PhpTruthy(ext) then ext else "jpg")
  {
    JoinedWithoutSlash(base, ext);
    NameWithExtension(base, ext);
    ExtensionOfFile(dir, base + "." + ext);
  }

  /** A URL whose last component has no dot is stored as "jpg". */
  lemma ExtensionOfUndotted(dir: string, base: string)
    requires '/' !in base && '.' !in base && base != []
    ensures ExtensionOrJpg(dir + "/" + base) == "jpg"
  {
    ExtensionOfFile(dir, base);
  }

  // ---------------------------------------------------------------------
  // searchGifs

  /** One result of the Tenor search, with the fields the controller reads. */
  datatype TenorGif = TenorGif(id: string, gifUrl: Option<string>, tinyGifUrl: Option<string>, title: Option<string>)

  /** Tenor's decoded answer; `None` where `json_decode` gave no array. */
  datatype TenorData = TenorData(results: Option<seq<TenorGif>>, next: Option<string>)

  datatype GifItem = GifItem(id: string, url: string, preview: string, title: string)

  datatype GifSearchResponse = GifSearchResponse(data: seq<GifItem>, next: Option<string>, error: Option<string>)

  /** One item of the response: a missing URL, preview or title is "". */
  function GifItemOf(g: TenorGif): (r: GifItem)
    ensures r.id == g.id
    ensures r.url == (if g.gifUrl.Some? then g.gifUrl.value else "")
    ensures r.preview == (if g.tinyGifUrl.Some? then g.tinyGifUrl.value else "")
    ensures r.title == (if g.title.Some? then g.title.value else "")
  {
    GifItem(g.id, g.gifUrl.GetOr(""), g.tinyGifUrl.GetOr(""), g.title.GetOr(""))
  }

  /** Whether `searchGifs` calls Tenor at all. */
  predicate CallsTenor(keyword: string) {
    PhpTruthy(keyword)
  }

  /** `searchGifs`: `fetch` is the call's outcome (the decoded answer, or
      the exception's message). */
  function SearchGifs(keyword: string, fetch: Result<Option<TenorData>, string>): (r: GifSearchResponse)
    ensures !CallsTenor(keyword) ==> r == GifSearchResponse([], None, None)
    ensures CallsTenor(keyword) && fetch.Failure? ==> r == GifSearchResponse([], None, Some(fetch.error))
    ensures CallsTenor(keyword) && fetch.Success? ==>
      && r.error.None?
      && (fetch.value.None? ==> r.data == [] && r.next.None?)
      && (fetch.value.Some? ==>
            var d := fetch.value.value;
            && r.next == d.next
            && |r.data| == (if d.results.Some? then |d.results.value| else 0)
            && forall i :: 0 <= i < |r.data| ==> r.data[i] == GifItemOf(d.results.value[i]))
  {
    if !CallsTenor(keyword) then GifSearchResponse([], None, None)
    else if fetch.Failure? then GifSearchResponse([], None, Some(fetch.error))
    else if fetch.value.None? then GifSearchResponse([], None, None)
    else
      var d := fetch.value.value;
      var gifs := if d.results.Some? then d.results.value else [];
      GifSearchResponse(seq(|gifs|, i requires 0 <= i < |gifs| => GifItemOf(gifs[i])), d.next, None)
  }

  /** An empty keyword, "0" included, answers without calling out: the
      response is the same whatever Tenor would have said. */
  lemma EmptyKeywordMakesNoCall(keyword: string, a: Result<Option<TenorData>, string>, b: Result<Option<TenorData>, string>)
    ensures !CallsTenor(keyword) ==> SearchGifs(keyword, a) == SearchGifs(keyword, b)
    ensures CallsTenor(keyword) <==> keyword != "" && keyword != "0"
  {
  }

  // ---------------------------------------------------------------------
  // The table

  /** A page of a list sorted newest first is sorted newest first and
      holds only rows of that list. */
  lemma PageOfSorted(sorted: seq<ServerMedia>, page: nat, perPage: int)
    requires page >= 1 && perPage != 0 && SortedBy(sorted, LatestLeq)
    ensures SortedBy(Page(sorted, page, perPage), LatestLeq)
    ensures forall m :: m in Page(sorted, page, perPage) ==> m in sorted
  {
    var r := Page(sorted, page, perPage);
    if perPage > 0 {
      forall i, j | 0 <= i < j < |r|
        ensures LatestLeq(r[i], r[j])
      {
        assert r[i] == sorted[(page - 1) * perPage + i] && r[j] == sorted[(page - 1) * perPage + j];
      }
      forall m | m in r
        ensures m in sorted
      {
        var i :| 0 <= i < |r| && r[i] == m;
        assert r[i] == sorted[(page - 1) * perPage + i];
      }
    }
  }

  /** A page of the caller's rows sorted newest first holds only the
      caller's rows, newest first; the total counts all of them. */
  lemma PageOfOwned(rows: seq<ServerMedia>, userId: int, page: nat, perPage: int)
    requires page >= 1 && perPage != 0
    ensures var sorted := SortBy(OwnedMedia(rows, userId), LatestLeq);
      && |sorted| == |OwnedMedia(rows, userId)|
      && SortedBy(Page(sorted, page, perPage), LatestLeq)
      && forall m :: m in Page(sorted, page, perPage) ==> m in rows && m.userId == userId
  {
    var owned := OwnedMedia(rows, userId);
    var sorted := SortBy(owned, LatestLeq);
    LatestIsPreorder();
    SortBySorted(owned, LatestLeq);
    assert |multiset(sorted)| == |multiset(owned)|;
    PageOfSorted(sorted, page, perPage);
    forall m | m in sorted
      ensures m in owned
    {
      assert m in multiset(sorted);
    }
  }

  /** `uploads`' meta block: no `from` or `to`. */
  datatype UploadsMeta = UploadsMeta(currentPage: nat, lastPage: nat, perPage: int, total: nat)

  datatype UploadsResponse = UploadsResponse(data: seq<ServerMedia>, meta: UploadsMeta)

  /** Ids are distinct and below the next one handed out. */
  ghost predicate IdsBelow(media: seq<ServerMedia>, nextId: int) {
    && (forall i :: 0 <= i < |media| ==> media[i].id < nextId)
    && (forall i, j :: 0 <= i < j < |media| ==> media[i].id != media[j].id)
  }

  /** A row given the next id keeps the ids distinct and below the id after
      it. */
  lemma AppendWithNextId(media: seq<ServerMedia>, nextId: int, m: ServerMedia)
    requires IdsBelow(media, nextId) && m.id == nextId
    ensures IdsBelow(media + [m], nextId + 1)
  {
    var r := media + [m];
    forall i, j | 0 <= i < j < |r|
      ensures r[i].id != r[j].id
    {
      if j == |media| {
        assert r[i] == media[i];
      }
    }
  }

  class MediaTable {
    var media: seq<ServerMedia>
    var files: set<StoredFile>
    var nextId: int

    /** Ids are distinct and below the next one handed out. */
    ghost predicate Valid()
      reads this
    {
      IdsBelow(media, nextId)
    }

    constructor()
      ensures Valid() && media == [] && files == {} && nextId == 1
    {
      media := [];
      files := {};
      nextId := 1;
    }

    /** `uploads`: the caller's media newest first, cut into pages; `None`
        is the 500 of a `per_page` the paginator cannot work with. A
        negative page size lists all of the caller's media. */
    method Uploads(userId: int, q: PageQuery) returns (r: Option<UploadsResponse>)
      ensures r.None? <==> PerPage(q).None?
      ensures r.Some? ==>
        var rows := SortBy(OwnedMedia(media, userId), LatestLeq);
        && r.value.data == Page(rows, CurrentPage(q), PerPage(q).value)
        && r.value.meta == UploadsMeta(CurrentPage(q), LastPage(|rows|, PerPage(q).value), PerPage(q).value, |rows|)
        && r.value.meta.total == |OwnedMedia(media, userId)|
      ensures r.Some? ==> forall m :: m in r.value.data ==> m in media && m.userId == userId
      ensures r.Some? ==> SortedBy(r.value.data, LatestLeq)
      ensures r.Some? && PerPage(q).value > 0 ==> |r.value.data| <= PerPage(q).value
      ensures r.Some? && PerPage(q).value < 0 ==> multiset(r.value.data) == multiset(OwnedMedia(media, userId))
    {
      var perPage := PerPage(q);
      if perPage.None? {
        return None;
      }
      var rows := SortBy(OwnedMedia(media, userId), LatestLeq);
      var page := CurrentPage(q);
      r := Some(UploadsResponse(Page(rows, page, perPage.value), UploadsMeta(page, LastPage(|rows|, perPage.value), perPage.value, |rows|)));
      PageOfOwned(media, userId, page, perPage.value);
    }

    /** `upload`: a missing or oversized file is refused (422); otherwise
        the file is stored under `hashName` on the public disk and a row
        owned by the caller is created (201). */
    method Upload(userId: int, file: Option<UploadedFile>, hashName: string, now: int) returns (status: int, created: Option<ServerMedia>)
      requires Valid()
      modifies this
      ensures Valid()
      ensures !UploadValid(file) ==> status == 422 && created.None? && media == old(media) && files == old(files) && nextId == old(nextId)
      ensures UploadValid(file) ==>
        var f := file.value;
        var path := MediaDirectory + hashName;
        && status == 201
        && SizeUnit(f.size).Some?
        && created == Some(ServerMedia(old(nextId), userId, f.clientName, f.mimeType, Some(Disk), Some(path), f.size, SizeUnit(f.size).value, now))
        && media == old(media) + [created.value]
        && files == old(files) + {StoredFile(Disk, path)}
        && nextId == old(nextId) + 1
    {
      if !UploadValid(file) {
        return 422, None;
      }
      var f := file.value;
      var path := MediaDirectory + hashName;
      files := files + {StoredFile(Disk, path)};
      AcceptedUploadsHaveUnit(file);
      var m := ServerMedia(nextId, userId, f.clientName, f.mimeType, Some(Disk), Some(path), f.size, SizeUnit(f.size).value, now);
      AppendWithNextId(media, nextId, m);
      media := media + [m];
      nextId := nextId + 1;
      return 201, Some(m);
    }

    /** `downloadExternal`: an invalid URL is refused (422). A failed fetch
        or a URL without a path is a 500 and changes nothing. Otherwise the
        contents are stored as `uniqueId` plus the URL's extension; a size
        with no unit then fails (500) with the file already written, and any
        other size creates the row (201). */
    method DownloadExternal(userId: int, body: Json, isUrl: string -> bool, fetch: Result<Fetched, string>, urlPath: Option<string>, uniqueId: string, now: int)
      returns (status: int, created: Option<ServerMedia>)
      requires Valid()
      modifies this
      ensures Valid()
      ensures !UrlValid(body, isUrl) ==> status == 422 && media == old(media) && files == old(files)
      ensures UrlValid(body, isUrl) && (fetch.Failure? || urlPath.None?) ==> status == 500 && media == old(media) && files == old(files)
      ensures UrlValid(body, isUrl) && fetch.Success? && urlPath.Some? ==>
        var name := StoredName(uniqueId, ExtensionOrJpg(urlPath.value));
        var path := MediaDirectory + name;
        && files == old(files) + {StoredFile(Disk, path)}
        && (SizeUnit(fetch.value.size).None? ==> status == 500 && media == old(media) && created.None?)
        && (SizeUnit(fetch.value.size).Some? ==>
              && status == 201
              && created == Some(ServerMedia(old(nextId), userId, name, fetch.value.mimeType, Some(Disk), Some(path),
                                             fetch.value.size, SizeUnit(fetch.value.size).value, now))
              && media == old(media) + [created.value])
      ensures status == 201 <==> created.Some?
      ensures nextId == if status == 201 then old(nextId) + 1 else old(nextId)
    {
      if !UrlValid(body, isUrl) {
        return 422, None;
      }
      if fetch.Failure? || urlPath.None? {
        return 500, None;
      }
      var name := StoredName(uniqueId, ExtensionOrJpg(urlPath.value));
      var path := MediaDirectory + name;
      files := files + {StoredFile(Disk, path)};
      var unit := SizeUnit(fetch.value.size);
      if unit.None? {
        return 500, None;
      }
      var m := ServerMedia(nextId, userId, name, fetch.value.mimeType, Some(Disk), Some(path), fetch.value.size, unit.value, now);
      AppendWithNextId(media, nextId, m);
      media := media + [m];
      nextId := nextId + 1;
      return 201, Some(m);
    }

    /** `destroy`: without a non-empty list of existing ids, 422. Otherwise
        each of the caller's listed media is visited in turn: its file is
        deleted when it has a disk and a path, then its row. Rows of other
        users are kept even when their ids are listed. */
    method Destroy(userId: int, body: Json) returns (status: int, removedFiles: set<StoredFile>)
      requires Valid()
      modifies this
      ensures Valid() && nextId == old(nextId)
      ensures status == 422 <==> !RequiredArray(body, "media", ExistingId(MediaIds(old(media))))
      ensures status == 422 ==> media == old(media) && files == old(files) && removedFiles == {}
      ensures status != 422 ==>
        var ids := IdValues(body.fields["media"]);
        && status == 200
        && media == KeepMedia(old(media), Unlisted(userId, ids))
        && removedFiles == FilesOf(KeepMedia(old(media), Listed(userId, ids)))
        && files == old(files) - removedFiles
    {
      if !RequiredArray(body, "media", ExistingId(MediaIds(media))) {
        return 422, {};
      }
      var ids := IdValues(body.fields["media"]);
      var items := KeepMedia(media, Listed(userId, ids));
      var rows, removed := DeleteEach(media, items);
      DestroyedRows(media, userId, ids, items, MediaIds(items));
      KeepMediaKeepsIds(media, Unlisted(userId, ids), nextId);
      media, files, removedFiles := rows, files - removed, removed;
      status := 200;
    }
  }

  /** The rows whose id is not in `ids`. */
  function NotIn(ids: set<int>): ServerMedia -> bool {
    (m: ServerMedia) => m.id !in ids
  }

  /** The loop of `destroy` over the fetched `items`: each one's file is
      removed when it has one, then its row. */
  method DeleteEach(rows: seq<ServerMedia>, items: seq<ServerMedia>) returns (kept: seq<ServerMedia>, removed: set<StoredFile>)
    ensures kept == KeepMedia(rows, NotIn(MediaIds(items)))
    ensures removed == FilesOf(items)
  {
    kept := rows;
    removed := {};
    assert MediaIds(items[..0]) == {};
    KeepMediaAll(rows, NotIn({}));
    var i := 0;
    while i < |items|
      invariant 0 <= i <= |items|
      invariant kept == KeepMedia(rows, NotIn(MediaIds(items[..i])))
      invariant removed == FilesOf(items[..i])
    {
      var item := items[i];
      DestroyStep(rows, items, i, kept);
      if HasFile(item) {
        removed := removed + {FileOf(item)};
      }
      kept := KeepMedia(kept, NotIn({item.id}));
      i := i + 1;
    }
    assert items[..i] == items;
  }

  /** One turn of `destroy`'s loop: deleting the next item's row and file
      extends what has been deleted by that item. */
  lemma DestroyStep(rows: seq<ServerMedia>, items: seq<ServerMedia>, i: nat, current: seq<ServerMedia>)
    requires i < |items|
    requires current == KeepMedia(rows, NotIn(MediaIds(items[..i])))
    ensures KeepMedia(current, NotIn({items[i].id})) == KeepMedia(rows, NotIn(MediaIds(items[..i + 1])))
    ensures FilesOf(items[..i + 1]) == FilesOf(items[..i]) + (if HasFile(items[i]) then {FileOf(items[i])} else {})
  {
    var done := items[..i];
    var after := items[..i + 1];
    assert after == done + [items[i]];
    assert MediaIds(after) == MediaIds(done) + {items[i].id} by {
      assert after[i] == items[i];
      forall k | k in MediaIds(done)
        ensures k in MediaIds(after)
      {
        var j :| 0 <= j < |done| && done[j].id == k;
        assert after[j] == done[j];
      }
    }
    KeepMediaTwice(rows, NotIn(MediaIds(done)), NotIn({items[i].id}), NotIn(MediaIds(after)));
  }

  /** Deleting row by row the ids of the caller's listed rows leaves
      exactly the rows that are not both the caller's and listed. */
  lemma DestroyedRows(rows: seq<ServerMedia>, userId: int, ids: set<int>, items: seq<ServerMedia>, deleted: set<int>)
    requires forall i, j :: 0 <= i < j < |rows| ==> rows[i].id != rows[j].id
    requires items == KeepMedia(rows, Listed(userId, ids))
    requires deleted == MediaIds(items)
    ensures KeepMedia(rows, NotIn(deleted)) == KeepMedia(rows, Unlisted(userId, ids))
  {
    forall m | m in rows
      ensures m.id in deleted <==> Listed(userId, ids)(m)
    {
      if m.id in deleted {
        var j :| 0 <= j < |items| && items[j].id == m.id;
        assert items[j] in items;
        var a :| 0 <= a < |rows| && rows[a] == m;
        var b :| 0 <= b < |rows| && rows[b] == items[j];
        assert a == b;
      }
      if Listed(userId, ids)(m) {
        assert m in items;
        var j :| 0 <= j < |items| && items[j] == m;
      }
    }
    KeepMediaAgree(rows, NotIn(deleted), Unlisted(userId, ids));
  }

  /** The owner scoping of `destroy`: another user's rows all survive,
      whatever ids are listed. */
  lemma DestroySparesOthers(rows: seq<ServerMedia>, userId: int, ids: set<int>, m: ServerMedia)
    requires m in rows && m.userId != userId
    ensures m in KeepMedia(rows, Unlisted(userId, ids))
  {
    assert Unlisted(userId, ids)(m);
  }
}
