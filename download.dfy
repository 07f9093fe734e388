/** The downloader (download_msm.py): which directory and which files on the
    archive are the latest, which local files are stale, and whether anything
    needs fetching. Pages of the archive, the local directory listing and the
    metadata file are inputs; whether a removal or a transfer raises is an
    input too. */
module Download {
  import opened Common

  const BaseUrl: string := "https://database.rish.kyoto-u.ac.jp/arch/jmadata/data/gpv/original/"
  const DataDir: string := "data"

  // ---------------------------------------------------------------------
  // Ordering of digit strings

  function Pow10(n: nat): (r: nat)
    ensures r > 0
  {
    if n == 0 then 1 else 10 * Pow10(n - 1)
  }

  function DigitOf(c: char): nat
    requires IsDigit(c)
  {
    c as int - '0' as int
  }

  lemma {:induction false} DigitsBelowPow(s: string)
    requires AllDigits(s)
    ensures DigitsValue(s) < Pow10(|s|)
  {
    if s != [] {
      DigitsBelowPow(s[..|s| - 1]);
    }
  }

  /** The value of a digit string read from its first digit. */
  lemma {:induction false} DigitsFront(s: string)
    requires AllDigits(s) && |s| > 0
    ensures DigitsValue(s) == DigitOf(s[0]) * Pow10(|s| - 1) + DigitsValue(s[1..])
  {
    var n := |s|;
    if n > 1 {
      var init := s[..n - 1];
      DigitsFront(init);
      assert init[1..] == s[1..][..n - 2];
      assert DigitsValue(s[1..]) == DigitsValue(init[1..]) * 10 + DigitOf(s[n - 1]);
      assert DigitOf(s[0]) * Pow10(n - 1) == DigitOf(s[0]) * Pow10(n - 2) * 10;
    } else {
      assert s[..0] == [];
      assert s[1..] == [];
    }
  }

  lemma MulLe(a: nat, b: nat, c: nat)
    requires a <= b
    ensures a * c <= b * c
  {
    assert (b - a) * c >= 0;
  }

  /** A smaller leading digit outweighs any tail below the place value. */
  lemma PlaceValueLess(da: nat, x: nat, db: nat, y: nat, p: nat)
    requires da < db && x < p
    ensures da * p + x < db * p + y
  {
    MulLe(da + 1, db, p);
    assert (da + 1) * p == da * p + p;
  }

  /** Between digit strings of one length, a smaller first digit means a
      smaller value, whatever follows. */
  lemma FirstDigitDecides(a: string, b: string)
    requires AllDigits(a) && AllDigits(b) && |a| == |b| > 0 && a[0] < b[0]
    ensures DigitsValue(a) < DigitsValue(b)
  {
    DigitsFront(a);
    DigitsFront(b);
    DigitsBelowPow(a[1..]);
    PlaceValueLess(DigitOf(a[0]), DigitsValue(a[1..]), DigitOf(b[0]), DigitsValue(b[1..]), Pow10(|a| - 1));
  }

  /** For digit strings of one length, as timestamps are, Python's string
      order is the order of their values: the latest listing entry is the
      latest time. */
  lemma {:induction false} DigitOrderIsNumeric(a: string, b: string)
    requires AllDigits(a) && AllDigits(b) && |a| == |b|
    ensures StrLess(a, b) <==> DigitsValue(a) < DigitsValue(b)
    decreases |a|
  {
    if a != [] {
      if a[0] == b[0] {
        DigitsFront(a);
        DigitsFront(b);
        DigitOrderIsNumeric(a[1..], b[1..]);
      } else if a[0] < b[0] {
        FirstDigitDecides(a, b);
      } else {
        FirstDigitDecides(b, a);
      }
    }
  }

  /** `links.sort(); links[-1]`: the greatest string in Python's order. */
  function Greatest(xs: seq<string>): (r: string)
    requires |xs| > 0
    ensures r in xs && forall x :: x in xs ==> StrLessEq(x, r)
  {
    if |xs| == 1 then xs[0]
    else
      var m := Greatest(xs[..|xs| - 1]);
      var last := xs[|xs| - 1];
      assert forall x :: x in xs ==> x in xs[..|xs| - 1] || x == last;
      StrLessTotal(m, last);
      if StrLess(m, last) then
        assert forall x :: x in xs[..|xs| - 1] ==> StrLessEq(x, last) by {
          forall x | x in xs[..|xs| - 1] ensures StrLessEq(x, last) {
            if x != m { StrLessTransitive(x, m, last); }
          }
        }
        last
      else m
  }

  // ---------------------------------------------------------------------
  // Directory links (lines 55-88, 252-272)

  /** `^\d{4}/$` for the year, `^\d{2}/$` for month and day. Python's `$`
      also matches just before a final newline. */
  datatype LinkPattern = YearDir | TwoDigitDir

  predicate DirLink(p: LinkPattern, s: string) {
    var n := if p == YearDir then 4 else 2;
    (|s| == n + 1 || (|s| == n + 2 && s[n + 1] == '\n')) && AllDigits(s[..n]) && s[n] == '/'
  }

  /** A matching link names a directory: the text before its first '/' is
      four digits for a year and two for a month or a day. */
  lemma DirLinkNamesDigits(p: LinkPattern, s: string)
    requires DirLink(p, s)
    ensures var d := BeforeFirst(s, '/');
      |d| == (if p == YearDir then 4 else 2) && AllDigits(d) && |s| > |d| && s[|d|] == '/'
  {
    DigitsBeforeSlash(s, if p == YearDir then 4 else 2);
  }

  /** In a link whose first `n` characters are digits followed by '/', the
      text before the first '/' is those digits. */
  lemma DigitsBeforeSlash(s: string, n: nat)
    requires n < |s| && AllDigits(s[..n]) && s[n] == '/'
    ensures BeforeFirst(s, '/') == s[..n]
  {
    var d := BeforeFirst(s, '/');
    assert forall k :: 0 <= k < n ==> s[k] == s[..n][k];
    if |d| > n {
      assert false;
    }
  }

  /** The hrefs of a page that match, in page order. */
  function MatchingLinks(hrefs: seq<string>, p: LinkPattern): (r: seq<string>)
    ensures forall h :: h in r <==> h in hrefs && h != "" && DirLink(p, h)
  {
    if hrefs == [] then []
    else
      var last := hrefs[|hrefs| - 1];
      var prior := MatchingLinks(hrefs[..|hrefs| - 1], p);
      assert forall h :: h in hrefs <==> h in hrefs[..|hrefs| - 1] || h == last;
      if last != "" && DirLink(p, last) then prior + [last] else prior
  }

  /** `get_latest_link` on a fetched page (None when the fetch failed): the
      greatest matching href, or None when nothing matches. */
  function LatestLink(page: Option<seq<string>>, p: LinkPattern): (r: Option<string>)
    ensures r.None? <==> page.None? || forall h :: h in page.value ==> !(h != "" && DirLink(p, h))
    ensures r.Some? ==> (r.value in page.value && DirLink(p, r.value) &&
      forall h :: h in page.value && h != "" && DirLink(p, h) ==> StrLessEq(h, r.value))
  {
    if page.None? then None
    else
      var links := MatchingLinks(page.value, p);
      if links == [] then None else Some(Greatest(links))
  }

  method GetLatestLink(page: Option<seq<string>>, p: LinkPattern) returns (r: Option<string>)
    ensures r == LatestLink(page, p)
  {
    if page.None? {
      return None;
    }
    var hrefs := page.value;
    var links: seq<string> := [];
    var i := 0;
    while i < |hrefs|
      invariant 0 <= i <= |hrefs|
      invariant links == MatchingLinks(hrefs[..i], p)
    {
      assert hrefs[..i + 1][..i] == hrefs[..i];
      var href := hrefs[i];
      if href != "" && DirLink(p, href) {
        links := links + [href];
      }
      i := i + 1;
    }
    assert hrefs[..i] == hrefs;
    if links == [] {
      return None;
    }
    r := Some(Greatest(links));
  }

  // ---------------------------------------------------------------------
  // MSM surface file names (lines 114, 139, 283)

  const MsmPrefix: string := "Z__C_RJTD_"
  const MsmMiddle: string := "_MSM_GPV_Rjp_Lsurf_FH"
  const MsmSuffix: string := "_grib2.bin"

  /** The file of initial time `ts` covering forecast hours `a` to `b`. */
  function MsmFileName(ts: string, a: string, b: string): string {
    MsmPrefix + ts + MsmMiddle + a + "-" + b + MsmSuffix
  }

  /** Whether `s` starts with an MSM surface file name (`re.match` anchors
      only the start). */
  predicate MsmAt(s: string) {
    |s| >= 60 && s[..10] == MsmPrefix && AllDigits(s[10..24]) && s[24..45] == MsmMiddle &&
    AllDigits(s[45..47]) && s[47] == '-' && AllDigits(s[48..50]) && s[50..60] == MsmSuffix
  }

  /** `msm_pattern.match(s)` and its group 1: the 14-digit initial time. */
  function MatchMsm(s: string): (r: Option<string>)
    ensures r.Some? <==> MsmAt(s)
    ensures r.Some? ==> (|r.value| == 14 && AllDigits(r.value) &&
      s[..60] == MsmFileName(r.value, s[45..47], s[48..50]))
  {
    if MsmAt(s) then
      assert s[..60] == s[..10] + s[10..24] + s[24..45] + s[45..47] + [s[47]] + s[48..50] + s[50..60];
      Some(s[10..24])
    else None
  }

  /** Every well-formed name is recognised, whatever follows it, and gives
      back its timestamp. */
  lemma MatchMsmName(ts: string, a: string, b: string, rest: string)
    requires |ts| == 14 && AllDigits(ts) && |a| == 2 && AllDigits(a) && |b| == 2 && AllDigits(b)
    ensures MatchMsm(MsmFileName(ts, a, b) + rest) == Some(ts)
  {
    var s := MsmFileName(ts, a, b) + rest;
    assert s[..10] == MsmPrefix && s[10..24] == ts && s[24..45] == MsmMiddle;
    assert s[45..47] == a && s[47] == '-' && s[48..50] == b && s[50..60] == MsmSuffix;
  }

  // ---------------------------------------------------------------------
  // Existing timestamp (lines 90-120)

  /** The metadata file: absent, present but unreadable (or not an object),
      or read, with its `timestamp` entry if any. */
  datatype Metadata = NoMetadata | BrokenMetadata | MetadataRead(timestamp: Option<string>)

  /** The first present value of a sequence of optional values. */
  function FirstSome<T>(xs: seq<Option<T>>): (r: Option<T>)
    ensures r.None? <==> forall i :: 0 <= i < |xs| ==> xs[i].None?
    ensures r.Some? ==> exists i :: 0 <= i < |xs| && xs[i] == r && forall j :: 0 <= j < i ==> xs[j].None?
  {
    if xs == [] then None
    else if xs[0].Some? then xs[0]
    else
      var r := FirstSome(xs[1..]);
      assert forall i :: 1 <= i < |xs| ==> xs[i] == xs[1..][i - 1];
      assert r.Some? ==> exists i :: 1 <= i < |xs| && xs[i] == r && forall j :: 0 <= j < i ==> xs[j].None? by {
        if r.Some? {
          var i :| 0 <= i < |xs[1..]| && xs[1..][i] == r && forall j :: 0 <= j < i ==> xs[1..][j].None?;
          assert xs[i + 1] == r;
        }
      }
      r
  }

  /** The timestamp of the first file in listing order that matches. */
  function FirstTimestamp(listing: seq<string>): (r: Option<string>)
    ensures r.None? <==> forall i :: 0 <= i < |listing| ==> MatchMsm(listing[i]).None?
    ensures r.Some? ==> exists i :: (0 <= i < |listing| && MatchMsm(listing[i]) == r &&
      forall j :: 0 <= j < i ==> MatchMsm(listing[j]).None?)
  {
    var matches := seq(|listing|, i requires 0 <= i < |listing| => MatchMsm(listing[i]));
    var r := FirstSome(matches);
    assert forall i :: 0 <= i < |listing| ==> matches[i] == MatchMsm(listing[i]);
    assert r.Some? ==> exists i :: (0 <= i < |listing| && MatchMsm(listing[i]) == r &&
      forall j :: 0 <= j < i ==> MatchMsm(listing[j]).None?) by {
      if r.Some? {
        var i :| 0 <= i < |matches| && matches[i] == r && forall j :: 0 <= j < i ==> matches[j].None?;
        assert MatchMsm(listing[i]) == r;
      }
    }
    r
  }

  /** `get_existing_timestamp`: a readable metadata file decides, even when
      it has no timestamp; otherwise the first matching file name; otherwise
      nothing. */
  function ExistingTimestamp(meta: Metadata, dataDirExists: bool, listing: seq<string>): (r: Option<string>)
    ensures meta.MetadataRead? ==> r == meta.timestamp
    ensures !meta.MetadataRead? && !dataDirExists ==> r.None?
    ensures !meta.MetadataRead? && dataDirExists ==> r == FirstTimestamp(listing)
  {
    match meta
    case MetadataRead(ts) => ts
    case _ => if dataDirExists then FirstTimestamp(listing) else None
  }

  // ---------------------------------------------------------------------
  // Removing stale files (lines 122-158)

  /** A file `clean_old_data` tries to remove: an MSM file of another time. */
  predicate Stale(name: string, latest: string) {
    MatchMsm(name).Some? && MatchMsm(name).value != latest
  }

  /** The names left after cleaning, in listing order. */
  function Kept(listing: seq<string>, latest: string, removeFails: string -> bool): (r: seq<string>)
    ensures |r| <= |listing|
    ensures forall x :: x in r <==> x in listing && !(Stale(x, latest) && !removeFails(x))
  {
    if listing == [] then []
    else
      var last := listing[|listing| - 1];
      var prior := Kept(listing[..|listing| - 1], latest, removeFails);
      assert forall x :: x in listing <==> x in listing[..|listing| - 1] || x == last;
      if Stale(last, latest) && !removeFails(last) then prior else prior + [last]
  }

  /** The names actually removed, in listing order. */
  function Removed(listing: seq<string>, latest: string, removeFails: string -> bool): (r: seq<string>)
    ensures forall x :: x in r <==> x in listing && Stale(x, latest) && !removeFails(x)
  {
    if listing == [] then []
    else
      var last := listing[|listing| - 1];
      var prior := Removed(listing[..|listing| - 1], latest, removeFails);
      assert forall x :: x in listing <==> x in listing[..|listing| - 1] || x == last;
      if Stale(last, latest) && !removeFails(last) then prior + [last] else prior
  }

  /** Every listed name is either kept or removed, never both. */
  lemma {:induction false} KeptAndRemovedPartition(listing: seq<string>, latest: string, removeFails: string -> bool)
    ensures |Kept(listing, latest, removeFails)| + |Removed(listing, latest, removeFails)| == |listing|
  {
    if listing != [] {
      KeptAndRemovedPartition(listing[..|listing| - 1], latest, removeFails);
    }
  }

  /** `clean_old_data` over a listing of `data`: what remains, and the count
      of successful removals. */
  method CleanOldData(dataDirExists: bool, listing: seq<string>, latest: string, removeFails: string -> bool)
    returns (remaining: seq<string>, deletedCount: nat)
    ensures !dataDirExists ==> remaining == listing && deletedCount == 0
    ensures dataDirExists ==> remaining == Kept(listing, latest, removeFails)
    ensures dataDirExists ==> deletedCount == |Removed(listing, latest, removeFails)|
    ensures deletedCount == |listing| - |remaining|
  {
    if !dataDirExists {
      return listing, 0;
    }
    remaining := [];
    deletedCount := 0;
    var i := 0;
    while i < |listing|
      invariant 0 <= i <= |listing|
      invariant remaining == Kept(listing[..i], latest, removeFails)
      invariant deletedCount == |Removed(listing[..i], latest, removeFails)|
    {
      assert listing[..i + 1][..i] == listing[..i];
      var filename := listing[i];
      var m := MatchMsm(filename);
      if m.Some? && m.value != latest && !removeFails(filename) {
        deletedCount := deletedCount + 1;
      } else {
        remaining := remaining + [filename];
      }
      i := i + 1;
    }
    assert listing[..i] == listing;
    KeptAndRemovedPartition(listing, latest, removeFails);
  }

  // ---------------------------------------------------------------------
  // Grouping the day's files (lines 283-303)

  /** The day page's MSM hrefs of initial time `t`, in page order. */
  function FilesFor(hrefs: seq<string>, t: string): (r: seq<string>)
    ensures forall h :: h in r <==> h in hrefs && h != "" && MatchMsm(h) == Some(t)
  {
    if hrefs == [] then []
    else
      var last := hrefs[|hrefs| - 1];
      var prior := FilesFor(hrefs[..|hrefs| - 1], t);
      assert forall h :: h in hrefs <==> h in hrefs[..|hrefs| - 1] || h == last;
      if last != "" && MatchMsm(last) == Some(t) then prior + [last] else prior
  }

  /** The initial times on the day page. */
  function TimestampsOf(hrefs: seq<string>): set<string> {
    set h | h in hrefs && h != "" && MatchMsm(h).Some? :: MatchMsm(h).value
  }

  /** Every initial time gathered is a 14-digit stamp, and every href that
      starts with an MSM surface file name contributes its stamp. */
  lemma TimestampsOfPage(hrefs: seq<string>)
    ensures forall t :: t in TimestampsOf(hrefs) ==> |t| == 14 && AllDigits(t)
    ensures forall h :: h in hrefs && h != "" && MsmAt(h) ==> h[10..24] in TimestampsOf(hrefs)
  {
  }

  /** `files_map` after the hrefs: each initial time to its files. */
  function Grouped(hrefs: seq<string>): (r: map<string, seq<string>>)
    ensures forall t :: t in r ==> r[t] != []
    ensures forall t, k :: t in r && 0 <= k < |r[t]| ==> r[t][k] in hrefs && MatchMsm(r[t][k]) == Some(t)
  {
    if hrefs == [] then map[]
    else
      var g := Grouped(hrefs[..|hrefs| - 1]);
      var last := hrefs[|hrefs| - 1];
      if last != "" && MatchMsm(last).Some? then
        var t := MatchMsm(last).value;
        g[t := (if t in g then g[t] else []) + [last]]
      else g
  }

  lemma {:induction false} NoFilesWithoutTimestamp(hrefs: seq<string>, t: string)
    requires t !in TimestampsOf(hrefs)
    ensures FilesFor(hrefs, t) == []
  {
    if hrefs != [] {
      var init := hrefs[..|hrefs| - 1];
      assert forall h :: h in init ==> h in hrefs;
      NoFilesWithoutTimestamp(init, t);
    }
  }

  lemma {:induction false} GroupedKeys(hrefs: seq<string>)
    ensures Grouped(hrefs).Keys == TimestampsOf(hrefs)
  {
    if hrefs != [] {
      var init := hrefs[..|hrefs| - 1];
      var last := hrefs[|hrefs| - 1];
      GroupedKeys(init);
      assert forall h :: h in hrefs <==> h in init || h == last;
      assert TimestampsOf(hrefs) ==
        TimestampsOf(init) + (if last != "" && MatchMsm(last).Some? then {MatchMsm(last).value} else {});
    }
  }

  /** The dictionary holds exactly the page's initial times, each with its
      files in page order. */
  lemma {:induction false} GroupedIsFilesFor(hrefs: seq<string>)
    ensures Grouped(hrefs).Keys == TimestampsOf(hrefs)
    ensures forall t :: t in Grouped(hrefs) ==> Grouped(hrefs)[t] == FilesFor(hrefs, t) && Grouped(hrefs)[t] != []
  {
    GroupedKeys(hrefs);
    if hrefs != [] {
      var init := hrefs[..|hrefs| - 1];
      var last := hrefs[|hrefs| - 1];
      var g := Grouped(init);
      GroupedIsFilesFor(init);
      forall t | t in Grouped(hrefs)
        ensures Grouped(hrefs)[t] == FilesFor(hrefs, t) && Grouped(hrefs)[t] != []
      {
        if t !in g {
          GroupedKeys(init);
          NoFilesWithoutTimestamp(init, t);
        }
      }
    }
  }

  /** The `timestamps` set and `files_map` dictionary. */
  method GroupByTimestamp(hrefs: seq<string>) returns (timestamps: set<string>, filesMap: map<string, seq<string>>)
    ensures timestamps == filesMap.Keys == TimestampsOf(hrefs)
    ensures forall t :: t in filesMap ==> filesMap[t] == FilesFor(hrefs, t) && filesMap[t] != []
  {
    timestamps := {};
    filesMap := map[];
    var i := 0;
    while i < |hrefs|
      invariant 0 <= i <= |hrefs|
      invariant filesMap == Grouped(hrefs[..i]) && timestamps == filesMap.Keys
    {
      assert hrefs[..i + 1][..i] == hrefs[..i];
      var href := hrefs[i];
      if href != "" {
        var m := MatchMsm(href);
        if m.Some? {
          var timestamp := m.value;
          timestamps := timestamps + {timestamp};
          if timestamp !in filesMap {
            filesMap := filesMap[timestamp := []];
          }
          filesMap := filesMap[timestamp := filesMap[timestamp] + [href]];
        }
      }
      i := i + 1;
    }
    assert hrefs[..i] == hrefs;
    GroupedIsFilesFor(hrefs);
  }

  /** The initial times on the page in page order, repeats included. */
  function MatchedTimestamps(hrefs: seq<string>): (r: seq<string>)
    ensures forall t :: t in r <==> t in TimestampsOf(hrefs)
  {
    if hrefs == [] then []
    else
      var last := hrefs[|hrefs| - 1];
      var prior := MatchedTimestamps(hrefs[..|hrefs| - 1]);
      assert forall h :: h in hrefs <==> h in hrefs[..|hrefs| - 1] || h == last;
      if last != "" && MatchMsm(last).Some? then prior + [MatchMsm(last).value] else prior
  }

  /** `sorted(list(timestamps))[-1]`: the greatest initial time. */
  function LatestTimestamp(hrefs: seq<string>): (r: string)
    requires TimestampsOf(hrefs) != {}
    ensures r in TimestampsOf(hrefs) && forall t :: t in TimestampsOf(hrefs) ==> StrLessEq(t, r)
  {
    var ts := MatchedTimestamps(hrefs);
    var t :| t in TimestampsOf(hrefs);
    assert t in ts;
    Greatest(ts)
  }

  // ---------------------------------------------------------------------
  // The update decision and the transfers (lines 185-215, 217-327)

  datatype Decision = AlreadyCurrent | CleanThenDownload | DownloadOnly

  /** Equal timestamps stop; a different, non-empty existing timestamp means
      stale files are cleaned first; no existing timestamp means a plain
      download. */
  function Decide(existing: Option<string>, latest: string): (r: Decision)
    ensures r == AlreadyCurrent <==> existing == Some(latest)
    ensures r == CleanThenDownload <==> existing.Some? && existing.value != "" && existing.value != latest
    ensures r == DownloadOnly <==> existing != Some(latest) && (existing.None? || existing.value == "")
  {
    if existing == Some(latest) then AlreadyCurrent
    else if existing.Some? && existing.value != "" then CleanThenDownload
    else DownloadOnly
  }

  /** Why `main` returned before downloading. */
  datatype Stop = NoYear | NoMonth | NoDay | NoDayPage | NoMsmFiles

  /** What `main` ends with: an early return, data already current, or an
      update with its cleaning step, the transfers (URL and local path) in
      page order, and the timestamp saved as metadata afterwards. */
  datatype Outcome =
    | Stopped(why: Stop)
    | UpToDate(latest: string)
    | Update(clean: bool, transfers: seq<(string, string)>, savedTimestamp: string)

  function Transfers(dayUrl: string, files: seq<string>): (r: seq<(string, string)>)
    ensures |r| == |files| && forall k :: 0 <= k < |files| ==> r[k] == (dayUrl + files[k], JoinPath(DataDir, files[k]))
  {
    seq(|files|, k requires 0 <= k < |files| => (dayUrl + files[k], JoinPath(DataDir, files[k])))
  }

  /** `main`, with `fetch(url)` the hrefs of a page or None when the request
      failed. */
  function Plan(existing: Option<string>, fetch: string -> Option<seq<string>>): (r: Outcome)
    ensures r.Update? ==> (r.clean <==> Decide(existing, r.savedTimestamp) == CleanThenDownload)
    ensures r.Update? ==> existing != Some(r.savedTimestamp)
  {
    match LatestLink(fetch(BaseUrl), YearDir)
    case None => Stopped(NoYear)
    case Some(year) =>
      var yearUrl := BaseUrl + year;
      match LatestLink(fetch(yearUrl), TwoDigitDir)
      case None => Stopped(NoMonth)
      case Some(month) =>
        var monthUrl := yearUrl + month;
        match LatestLink(fetch(monthUrl), TwoDigitDir)
        case None => Stopped(NoDay)
        case Some(day) =>
          var dayUrl := monthUrl + day;
          match fetch(dayUrl)
          case None => Stopped(NoDayPage)
          case Some(hrefs) => DayPlan(existing, dayUrl, hrefs)
  }

  /** The part of `main` after the day page has been fetched. */
  function DayPlan(existing: Option<string>, dayUrl: string, hrefs: seq<string>): (r: Outcome)
    ensures r.Stopped? <==> TimestampsOf(hrefs) == {}
    ensures r.Stopped? ==> r.why == NoMsmFiles
    ensures r.UpToDate? ==> existing == Some(r.latest) && r.latest in TimestampsOf(hrefs)
    ensures r.Update? ==> (r.clean <==> Decide(existing, r.savedTimestamp) == CleanThenDownload)
    ensures r.Update? ==> existing != Some(r.savedTimestamp)
  {
    if TimestampsOf(hrefs) == {} then Stopped(NoMsmFiles)
    else
      var latest := LatestTimestamp(hrefs);
      match Decide(existing, latest)
      case AlreadyCurrent => UpToDate(latest)
      case CleanThenDownload => Update(true, Transfers(dayUrl, FilesFor(hrefs, latest)), latest)
      case DownloadOnly => Update(false, Transfers(dayUrl, FilesFor(hrefs, latest)), latest)
  }

  /** An update fetches every file of the greatest initial time on the day
      page, and only those, in page order; there is at least one. */
  lemma UpdateFetchesLatest(existing: Option<string>, dayUrl: string, hrefs: seq<string>)
    requires DayPlan(existing, dayUrl, hrefs).Update?
    ensures var r := DayPlan(existing, dayUrl, hrefs);
      r.savedTimestamp in TimestampsOf(hrefs) &&
      (forall t :: t in TimestampsOf(hrefs) ==> StrLessEq(t, r.savedTimestamp)) &&
      r.transfers == Transfers(dayUrl, FilesFor(hrefs, r.savedTimestamp)) &&
      r.transfers != []
  {
    var latest := LatestTimestamp(hrefs);
    var h :| h in hrefs && h != "" && MatchMsm(h).Some? && MatchMsm(h).value == latest;
    assert h in FilesFor(hrefs, latest);
  }

  /** Once the latest year, month and day directories are found and the day
      page is fetched, `main` goes on with that page. */
  lemma PlanFollowsLatest(existing: Option<string>, fetch: string -> Option<seq<string>>,
                          year: string, month: string, day: string)
    requires LatestLink(fetch(BaseUrl), YearDir) == Some(year)
    requires LatestLink(fetch(BaseUrl + year), TwoDigitDir) == Some(month)
    requires LatestLink(fetch(BaseUrl + year + month), TwoDigitDir) == Some(day)
    requires fetch(BaseUrl + year + month + day).Some?
    ensures Plan(existing, fetch) ==
      DayPlan(existing, BaseUrl + year + month + day, fetch(BaseUrl + year + month + day).value)
  {
  }

  /** The `main` flow. */
  method RunDownloader(existing: Option<string>, fetch: string -> Option<seq<string>>) returns (r: Outcome)
    ensures r == Plan(existing, fetch)
  {
    var year := GetLatestLink(fetch(BaseUrl), YearDir);
    if year.None? {
      return Stopped(NoYear);
    }
    var yearUrl := BaseUrl + year.value;
    var month := GetLatestLink(fetch(yearUrl), TwoDigitDir);
    if month.None? {
      return Stopped(NoMonth);
    }
    var monthUrl := yearUrl + month.value;
    var day := GetLatestLink(fetch(monthUrl), TwoDigitDir);
    if day.None? {
      return Stopped(NoDay);
    }
    var dayUrl := monthUrl + day.value;
    var page := fetch(dayUrl);
    if page.None? {
      return Stopped(NoDayPage);
    }
    var timestamps, filesMap := GroupByTimestamp(page.value);
    if timestamps == {} {
      return Stopped(NoMsmFiles);
    }
    var latest := LatestTimestamp(page.value);
    var decision := Decide(existing, latest);
    if decision == AlreadyCurrent {
      return UpToDate(latest);
    }
    r := Update(decision == CleanThenDownload, Transfers(dayUrl, filesMap[latest]), latest);
  }

  /** `download_file` on the set of local paths: an existing path is left
      alone; otherwise the file appears when the transfer succeeds, and a
      partial file is removed when it fails. */
  function DownloadFile(local: set<string>, path: string, fails: bool): (r: set<string>)
    ensures path in local ==> r == local
    ensures path !in local ==> (path in r <==> !fails) && r - {path} == local
  {
    if path in local then local else if fails then local else local + {path}
  }

  /** The transfer loop, `fails(k)` telling whether transfer `k` fails: a
      path listed twice is tried again when its first transfer failed.
      Afterwards a path is present iff it was before or some transfer to it
      succeeded, and nothing else changed. */
  method DownloadAll(local0: set<string>, transfers: seq<(string, string)>, fails: nat -> bool)
    returns (local: set<string>)
    ensures forall p :: p in local <==> p in local0 || exists k :: 0 <= k < |transfers| && transfers[k].1 == p && !fails(k)
  {
    local := local0;
    for i := 0 to |transfers|
      invariant forall p :: p in local <==> p in local0 || exists k :: 0 <= k < i && transfers[k].1 == p && !fails(k)
    {
      local := DownloadFile(local, transfers[i].1, fails(i));
    }
  }
}
