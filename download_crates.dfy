/**
 * The crate-selection pipeline of the downloader: pick the latest crates.io
 * database dump, keep the crates updated within the maximum age, order them
 * by downloads, keep the first `totalCount`, gather the non-yanked versions
 * of the kept crates, and plan one download per kept crate: its newest
 * version, unless that version's directory is already present.
 *
 * The file system, the CSV reader and the network are inputs here: the dump
 * directory's entries are their file names, the two CSV files are sequences
 * of rows, the source directory's contents are a set of names, and the
 * downloads are returned as the list of URLs that would be fetched, in order.
 * Times are integers.
 */
module DownloadCrates {
  import opened Wrappers
  import opened Seqs

  datatype CrateRow = CrateRow(id: nat, name: string, downloads: nat, updatedAt: int, createdAt: int)

  datatype VersionRow = VersionRow(crateId: nat, num: string, license: string, yanked: char, createdAt: int)

  const NoDumpMessage: string := "no crates.io database dump downloaded"

  // ------------------------------------------------------------ the dump

  /** Byte-wise lexicographic order on file names (code-point order, which UTF-8 byte order agrees with). */
  predicate LexLe(a: string, b: string)
  {
    if a == [] then true
    else if b == [] then false
    else if a[0] != b[0] then a[0] < b[0]
    else LexLe(a[1..], b[1..])
  }

  lemma {:induction false} LexLeTotal(a: string, b: string)
    ensures LexLe(a, b) || LexLe(b, a)
    decreases |a|
  {
    if a != [] && b != [] && a[0] == b[0] {
      LexLeTotal(a[1..], b[1..]);
    }
  }

  lemma {:induction false} LexLeTrans(a: string, b: string, c: string)
    requires LexLe(a, b) && LexLe(b, c)
    ensures LexLe(a, c)
    decreases |a|
  {
    if a != [] && b != [] && c != [] && a[0] == b[0] && b[0] == c[0] {
      LexLeTrans(a[1..], b[1..], c[1..]);
    }
  }

  lemma {:induction false} LexLeAntisym(a: string, b: string)
    requires LexLe(a, b) && LexLe(b, a)
    ensures a == b
    decreases |a|
  {
    if a != [] && b != [] {
      LexLeAntisym(a[1..], b[1..]);
      assert a == [a[0]] + a[1..] && b == [b[0]] + b[1..];
    }
  }

  /**
   * The dump with the greatest file name; among equal names the last one.
   * Without any dump, the error the downloader reports.
   */
  function LatestDump(dumps: seq<string>): (r: Result<string, string>)
    ensures r.Err? <==> dumps == []
    ensures r.Err? ==> r.error == NoDumpMessage
    ensures r.Ok? ==> r.value in dumps
  {
    if dumps == [] then Err(NoDumpMessage)
    else
      var rest := LatestDump(dumps[..|dumps| - 1]);
      var last := dumps[|dumps| - 1];
      if rest.Err? || LexLe(rest.value, last) then Ok(last) else rest
  }

  /** Position `i` holds a greatest name, and no later position holds the same name. */
  predicate IsLatestAt(dumps: seq<string>, i: int)
  {
    && 0 <= i < |dumps|
    && (forall d :: d in dumps ==> LexLe(d, dumps[i]))
    && (forall j :: i < j < |dumps| ==> dumps[j] != dumps[i])
  }

  lemma ExtendLatest(dumps: seq<string>, i: int)
    requires dumps != [] && IsLatestAt(dumps[..|dumps| - 1], i)
    ensures LexLe(dumps[i], dumps[|dumps| - 1]) ==> IsLatestAt(dumps, |dumps| - 1)
    ensures !LexLe(dumps[i], dumps[|dumps| - 1]) ==> IsLatestAt(dumps, i)
  {
    var front, last := dumps[..|dumps| - 1], dumps[|dumps| - 1];
    assert dumps == front + [last];
    assert dumps[i] == front[i];
    LexLeTotal(last, last);
    if LexLe(dumps[i], last) {
      forall d | d in dumps
        ensures LexLe(d, last)
      {
        if d in front {
          LexLeTrans(d, dumps[i], last);
        }
      }
    } else {
      LexLeTotal(dumps[i], last);
      forall j | i < j < |dumps|
        ensures dumps[j] != dumps[i]
      {
        if j < |front| {
          assert dumps[j] == front[j];
        }
      }
    }
  }

  /** No dump has a greater name than the chosen one, and none after it has the same. */
  lemma {:induction false} LatestDumpIsGreatest(dumps: seq<string>)
    requires dumps != []
    ensures exists i :: IsLatestAt(dumps, i) && dumps[i] == LatestDump(dumps).value
    decreases |dumps|
  {
    var front := dumps[..|dumps| - 1];
    if front == [] {
      LexLeTotal(dumps[0], dumps[0]);
      assert IsLatestAt(dumps, 0);
    } else {
      LatestDumpIsGreatest(front);
      var i :| IsLatestAt(front, i) && front[i] == LatestDump(front).value;
      ExtendLatest(dumps, i);
      if LexLe(dumps[i], dumps[|dumps| - 1]) {
        assert IsLatestAt(dumps, |dumps| - 1) && dumps[|dumps| - 1] == LatestDump(dumps).value;
      } else {
        assert IsLatestAt(dumps, i) && dumps[i] == LatestDump(dumps).value;
      }
    }
  }


  // ------------------------------------------------- choosing the crates

  /** `retain`: the crates updated after the cutoff, in their order. */
  function Retain(crates: seq<CrateRow>, cutoff: int): seq<CrateRow>
  {
    if crates == [] then []
    else
      var last := crates[|crates| - 1];
      Retain(crates[..|crates| - 1], cutoff) + (if last.updatedAt > cutoff then [last] else [])
  }

  /** Exactly the crates updated after the cutoff are kept, each as often as it occurs. */
  lemma {:induction false} RetainKeepsRecent(crates: seq<CrateRow>, cutoff: int)
    ensures forall r :: r in Retain(crates, cutoff) <==> r in crates && r.updatedAt > cutoff
    ensures multiset(Retain(crates, cutoff)) <= multiset(crates)
    ensures |Retain(crates, cutoff)| <= |crates|
    decreases |crates|
  {
    if crates != [] {
      var front := crates[..|crates| - 1];
      RetainKeepsRecent(front, cutoff);
      assert crates == front + [crates[|crates| - 1]];
    }
  }

  // Ordering by a key. The orderings below only look at the key, so they are
  // stated for any element type.

  /** Non-increasing in the key. */
  predicate SortedDesc<T>(s: seq<T>, key: T -> nat)
  {
    forall i, j :: 0 <= i < j < |s| ==> key(s[i]) >= key(s[j])
  }

  /** Inserts `x` before the first element with a smaller key. */
  function InsertDesc<T(==)>(x: T, s: seq<T>, key: T -> nat): (r: seq<T>)
    ensures multiset(r) == multiset(s) + multiset{x}
    ensures |r| == |s| + 1
    decreases |s|
  {
    if s == [] then [x]
    else if key(x) >= key(s[0]) then [x] + s
    else
      assert s == [s[0]] + s[1..];
      [s[0]] + InsertDesc(x, s[1..], key)
  }

  /** An element whose key bounds a sorted list's keys can go in front of it. */
  lemma ConsSorted<T>(h: T, s: seq<T>, key: T -> nat)
    requires SortedDesc(s, key)
    requires forall k :: 0 <= k < |s| ==> key(s[k]) <= key(h)
    ensures SortedDesc([h] + s, key)
  {
    var r := [h] + s;
    forall i, j | 0 <= i < j < |r|
      ensures key(r[i]) >= key(r[j])
    {
      assert r[j] == s[j - 1];
      if i > 0 {
        assert r[i] == s[i - 1];
      }
    }
  }

  /** Every element of an insertion into `s` is `x` or an element of `s`. */
  lemma InsertDescFrom<T>(x: T, s: seq<T>, key: T -> nat, k: nat)
    requires k < |InsertDesc(x, s, key)|
    ensures InsertDesc(x, s, key)[k] == x || InsertDesc(x, s, key)[k] in s
  {
    var y := InsertDesc(x, s, key)[k];
    assert y in multiset(InsertDesc(x, s, key));
  }

  lemma {:induction false} InsertDescSorted<T>(x: T, s: seq<T>, key: T -> nat)
    requires SortedDesc(s, key)
    ensures SortedDesc(InsertDesc(x, s, key), key)
    decreases |s|
  {
    if s == [] {
    } else if key(x) >= key(s[0]) {
      ConsSorted(x, s, key);
    } else {
      var tail := InsertDesc(x, s[1..], key);
      InsertDescSorted(x, s[1..], key);
      forall k | 0 <= k < |tail|
        ensures key(tail[k]) <= key(s[0])
      {
        InsertDescFrom(x, s[1..], key, k);
        if tail[k] != x {
          var m :| 0 <= m < |s[1..]| && s[1..][m] == tail[k];
          assert s[m + 1] == tail[k];
        }
      }
      ConsSorted(s[0], tail, key);
    }
  }

  /** An ordering of the same elements, greatest key first. */
  function SortDesc<T(==)>(s: seq<T>, key: T -> nat): (r: seq<T>)
    ensures SortedDesc(r, key)
    ensures multiset(r) == multiset(s)
    ensures |r| == |s|
    decreases |s|
  {
    if s == [] then []
    else
      var init, x := s[..|s| - 1], s[|s| - 1];
      var sorted := SortDesc(init, key);
      InsertDescSorted(x, sorted, key);
      MultisetOfLast(s);
      InsertDesc(x, sorted, key)
  }

  /** `truncate(n)`: the first n elements, or all of them when there are fewer. */
  function Truncate<T>(s: seq<T>, n: nat): (r: seq<T>)
    ensures |r| == if |s| < n then |s| else n
    ensures r == s[..|r|]
  {
    if |s| > n then s[..n] else s
  }

  /**
   * The first `n` of a list sorted by a key are the `n` greatest: no element
   * left behind has a greater key than a kept one.
   */
  lemma TopDesc<T>(sorted: seq<T>, n: nat, key: T -> nat)
    requires SortedDesc(sorted, key)
    ensures var kept := Truncate(sorted, n);
      SortedDesc(kept, key) &&
      forall x, y :: x in kept && y in sorted[|kept|..] ==> key(x) >= key(y)
  {
    var kept := Truncate(sorted, n);
    forall x, y | x in kept && y in sorted[|kept|..]
      ensures key(x) >= key(y)
    {
      var i :| 0 <= i < |kept| && kept[i] == x;
      var j :| 0 <= j < |sorted| - |kept| && sorted[|kept|..][j] == y;
      assert sorted[i] == x && sorted[|kept| + j] == y;
    }
  }

  function Downloads(c: CrateRow): nat { c.downloads }

  /**
   * `sort_unstable_by_key(|row| Reverse(row.downloads))`: an ordering by
   * downloads, most first, of the same crates. The library leaves the order of
   * crates with equal downloads open; the properties below hold for any order.
   */
  function SortByDownloads(s: seq<CrateRow>): (r: seq<CrateRow>)
    ensures SortedDesc(r, Downloads)
    ensures multiset(r) == multiset(s)
  {
    SortDesc(s, Downloads)
  }

  /** The crates the downloader goes on with: retained, ordered by downloads, truncated. */
  function Selected(crates: seq<CrateRow>, cutoff: int, totalCount: nat): seq<CrateRow>
  {
    Truncate(SortByDownloads(Retain(crates, cutoff)), totalCount)
  }

  /**
   * The selection: at most `totalCount` crates, as many as there are recent
   * ones up to that bound, all updated after the cutoff, ordered by
   * downloads, and a prefix of an ordering by downloads of all recent crates,
   * none of the rest of which has more downloads than a selected one.
   */
  lemma SelectedFacts(crates: seq<CrateRow>, cutoff: int, totalCount: nat)
    ensures var sel := Selected(crates, cutoff, totalCount);
      var recent := Retain(crates, cutoff);
      var sorted := SortByDownloads(recent);
      |sel| == (if |recent| < totalCount then |recent| else totalCount) &&
      (forall r :: r in sel ==> r in crates && r.updatedAt > cutoff) &&
      SortedDesc(sel, Downloads) &&
      multiset(sorted) == multiset(recent) && sel == sorted[..|sel|] &&
      forall x, y :: x in sel && y in sorted[|sel|..] ==> Downloads(x) >= Downloads(y)
  {
    var recent := Retain(crates, cutoff);
    var sorted := SortByDownloads(recent);
    var sel := Truncate(sorted, totalCount);
    RetainKeepsRecent(crates, cutoff);
    TopDesc(sorted, totalCount, Downloads);
    forall r | r in sel
      ensures r in crates && r.updatedAt > cutoff
    {
      assert r in sorted;
      assert r in multiset(sorted);
      assert r in multiset(recent);
    }
  }

  // ---------------------------------------------------- the version map

  function Ids(crates: seq<CrateRow>): set<nat>
  {
    set r | r in crates :: r.id
  }

  /** The non-yanked versions of crate `id`, in file order. */
  function Collected(rows: seq<VersionRow>, id: nat): seq<VersionRow>
  {
    if rows == [] then []
    else
      var last := rows[|rows| - 1];
      Collected(rows[..|rows| - 1], id) + (if last.yanked != 't' && last.crateId == id then [last] else [])
  }

  lemma {:induction false} CollectedFacts(rows: seq<VersionRow>, id: nat)
    ensures forall v :: v in Collected(rows, id) <==> v in rows && v.crateId == id && v.yanked != 't'
    decreases |rows|
  {
    if rows != [] {
      CollectedFacts(rows[..|rows| - 1], id);
      assert rows == rows[..|rows| - 1] + [rows[|rows| - 1]];
    }
  }

  /** `versions.entry(row.id).or_default()` for every selected crate: one empty list per id. */
  method InitVersions(crates: seq<CrateRow>) returns (versions: map<nat, seq<VersionRow>>)
    ensures versions.Keys == Ids(crates)
    ensures forall id :: id in versions ==> versions[id] == []
  {
    versions := map[];
    var i := 0;
    while i < |crates|
      invariant i <= |crates|
      invariant versions.Keys == Ids(crates[..i])
      invariant forall id :: id in versions ==> versions[id] == []
    {
      assert crates[..i + 1] == crates[..i] + [crates[i]];
      var id := crates[i].id;
      if id !in versions {
        versions := versions[id := []];
      }
      i := i + 1;
    }
    assert crates[..|crates|] == crates;
  }

  /**
   * One pass over the versions file: a version that is not yanked is appended
   * to its crate's list when that crate has one; the set of crates does not
   * change.
   */
  method FillVersions(versions: map<nat, seq<VersionRow>>, rows: seq<VersionRow>)
    returns (filled: map<nat, seq<VersionRow>>)
    ensures filled.Keys == versions.Keys
    ensures forall id :: id in filled ==> filled[id] == versions[id] + Collected(rows, id)
  {
    filled := versions;
    var i := 0;
    while i < |rows|
      invariant i <= |rows|
      invariant filled.Keys == versions.Keys
      invariant forall id :: id in filled ==> filled[id] == versions[id] + Collected(rows[..i], id)
    {
      var version := rows[i];
      ghost var before := filled;
      if version.yanked != 't' {
        if version.crateId in filled {
          filled := filled[version.crateId := filled[version.crateId] + [version]];
        }
      }
      forall id | id in filled
        ensures filled[id] == versions[id] + Collected(rows[..i + 1], id)
      {
        var added := if version.yanked != 't' && version.crateId == id then [version] else [];
        assert rows[..i + 1][..i] == rows[..i];
        assert Collected(rows[..i + 1], id) == Collected(rows[..i], id) + added;
        assert filled[id] == before[id] + added;
        AppendAssoc(versions[id], Collected(rows[..i], id), added);
      }
      i := i + 1;
    }
    assert rows[..|rows|] == rows;
  }

  // ------------------------------------------------- the download plan

  /** The element with the greatest key; among equal keys the last, as `max_by_key` returns. */
  function LastMax<T>(s: seq<T>, key: T -> int): (r: Option<T>)
    ensures r.None? <==> s == []
    ensures r.Some? ==> r.value in s
    decreases |s|
  {
    if s == [] then None
    else
      var rest := LastMax(s[..|s| - 1], key);
      var last := s[|s| - 1];
      if rest.None? || key(rest.value) <= key(last) then Some(last) else rest
  }

  /** Position `i` holds a greatest key, and every later position a smaller one. */
  predicate IsLastMaximal<T>(s: seq<T>, key: T -> int, i: int)
  {
    && 0 <= i < |s|
    && (forall j :: 0 <= j < |s| ==> key(s[j]) <= key(s[i]))
    && (forall j :: i < j < |s| ==> key(s[j]) < key(s[i]))
  }

  /** One more element either takes over as the last maximal one or leaves the old one in place. */
  lemma ExtendLastMaximal<T>(s: seq<T>, key: T -> int, i: int)
    requires s != [] && IsLastMaximal(s[..|s| - 1], key, i)
    ensures key(s[i]) <= key(s[|s| - 1]) ==> IsLastMaximal(s, key, |s| - 1)
    ensures key(s[|s| - 1]) < key(s[i]) ==> IsLastMaximal(s, key, i)
  {
    var front := s[..|s| - 1];
    forall j | 0 <= j < |front|
      ensures s[j] == front[j]
    {
    }
  }

  /** The chosen element's key is at least every other key, and greater than every key after it. */
  lemma {:induction false} LastMaxIsLastMaximal<T>(s: seq<T>, key: T -> int)
    requires s != []
    ensures exists i :: IsLastMaximal(s, key, i) && s[i] == LastMax(s, key).value
    decreases |s|
  {
    var front := s[..|s| - 1];
    if front == [] {
      assert IsLastMaximal(s, key, 0);
    } else {
      LastMaxIsLastMaximal(front, key);
      var i :| IsLastMaximal(front, key, i) && front[i] == LastMax(front, key).value;
      ExtendLastMaximal(s, key, i);
      if key(s[i]) <= key(s[|s| - 1]) {
        assert IsLastMaximal(s, key, |s| - 1) && s[|s| - 1] == LastMax(s, key).value;
      } else {
        assert IsLastMaximal(s, key, i) && s[i] == LastMax(s, key).value;
      }
    }
  }

  function CreatedAt(v: VersionRow): int { v.createdAt }

  /** `max_by_key(|ver| &ver.created_at)`: the newest version; among equally new ones the last. */
  function NewestVersion(vs: seq<VersionRow>): (r: Option<VersionRow>)
    ensures r.None? <==> vs == []
    ensures r.Some? ==> r.value in vs
  {
    LastMax(vs, CreatedAt)
  }

  /** The directory a crate version unpacks to, `{name}-{num}`. */
  function DirName(name: string, num: string): string
  {
    name + "-" + num
  }

  function CrateUrl(name: string, num: string): string
  {
    "https://static.crates.io/crates/" + name + "/" + name + "-" + num + ".crate"
  }

  /** The URL is the crate's directory on the static host, then the archive named after the version's directory. */
  lemma UrlEndsWithDirName(name: string, num: string)
    ensures var url := CrateUrl(name, num);
      var dir := "https://static.crates.io/crates/" + name + "/";
      var file := DirName(name, num) + ".crate";
      && |url| == |dir| + |file|
      && url[..|dir|] == dir
      && url[|dir|..] == file
  {
    var url := CrateUrl(name, num);
    var dir := "https://static.crates.io/crates/" + name + "/";
    var file := DirName(name, num) + ".crate";
    assert url == dir + file;
  }

  /**
   * The download for one selected crate: none when it has no collected
   * version or when its newest version's directory is already present;
   * otherwise the URL of that version.
   */
  function DownloadFor(row: CrateRow, versions: map<nat, seq<VersionRow>>, present: set<string>): (r: Option<string>)
    ensures r.Some? <==> row.id in versions && versions[row.id] != []
                         && DirName(row.name, NewestVersion(versions[row.id]).value.num) !in present
    ensures r.Some? ==> r.value == CrateUrl(row.name, NewestVersion(versions[row.id]).value.num)
  {
    var version := if row.id in versions then NewestVersion(versions[row.id]) else None;
    if version.None? then None
    else if DirName(row.name, version.value.num) in present then None
    else Some(CrateUrl(row.name, version.value.num))
  }

  function Plan(crates: seq<CrateRow>, versions: map<nat, seq<VersionRow>>, present: set<string>): seq<string>
  {
    if crates == [] then []
    else
      var d := DownloadFor(crates[|crates| - 1], versions, present);
      Plan(crates[..|crates| - 1], versions, present) + (if d.Some? then [d.value] else [])
  }

  /** Some crate of `crates` downloads from `url`. */
  predicate DownloadedBySome(crates: seq<CrateRow>, versions: map<nat, seq<VersionRow>>, present: set<string>, url: string)
  {
    exists i :: 0 <= i < |crates| && DownloadFor(crates[i], versions, present) == Some(url)
  }

  lemma DownloadedBySomeLast(crates: seq<CrateRow>, versions: map<nat, seq<VersionRow>>, present: set<string>, url: string)
    requires crates != []
    ensures DownloadedBySome(crates, versions, present, url)
        <==> DownloadedBySome(crates[..|crates| - 1], versions, present, url)
             || DownloadFor(crates[|crates| - 1], versions, present) == Some(url)
  {
    var front := crates[..|crates| - 1];
    if DownloadedBySome(crates, versions, present, url) {
      var i :| 0 <= i < |crates| && DownloadFor(crates[i], versions, present) == Some(url);
      if i < |front| {
        assert front[i] == crates[i];
      }
    }
    if DownloadedBySome(front, versions, present, url) {
      var i :| 0 <= i < |front| && DownloadFor(front[i], versions, present) == Some(url);
      assert crates[i] == front[i];
    }
  }

  /** A URL is planned exactly when some selected crate's download is that URL. */
  lemma {:induction false} PlanFacts(crates: seq<CrateRow>, versions: map<nat, seq<VersionRow>>, present: set<string>)
    ensures forall url :: url in Plan(crates, versions, present) <==> DownloadedBySome(crates, versions, present, url)
    ensures |Plan(crates, versions, present)| <= |crates|
    decreases |crates|
  {
    if crates != [] {
      PlanFacts(crates[..|crates| - 1], versions, present);
      forall url
        ensures url in Plan(crates, versions, present) <==> DownloadedBySome(crates, versions, present, url)
      {
        DownloadedBySomeLast(crates, versions, present, url);
      }
    }
  }

  /** The download loop: the crates in selection order, skipping those with nothing to fetch. */
  method PlanDownloads(crates: seq<CrateRow>, versions: map<nat, seq<VersionRow>>, present: set<string>)
    returns (urls: seq<string>)
    ensures urls == Plan(crates, versions, present)
  {
    urls := [];
    var i := 0;
    while i < |crates|
      invariant i <= |crates|
      invariant urls == Plan(crates[..i], versions, present)
    {
      assert crates[..i + 1][..i] == crates[..i];
      var row := crates[i];
      i := i + 1;
      var version := if row.id in versions then NewestVersion(versions[row.id]) else None;
      if version.None? {
        continue;
      }
      if DirName(row.name, version.value.num) in present {
        continue;
      }
      urls := urls + [CrateUrl(row.name, version.value.num)];
    }
    assert crates[..|crates|] == crates;
  }

  /**
   * The downloader from the choice of dump to the last download: the error
   * when no dump exists, otherwise the URLs fetched for the selected crates.
   * `crates` and `versionRows` are the contents of the chosen dump's two CSV
   * files, `present` the names already in the source directory.
   */
  method SelectAndDownload(dumps: seq<string>, crates: seq<CrateRow>, versionRows: seq<VersionRow>,
                           now: int, maxAge: nat, totalCount: nat, present: set<string>)
    returns (r: Result<seq<string>, string>)
    ensures dumps == [] ==> r == Err(NoDumpMessage)
    ensures dumps != [] ==> r.Ok?
    ensures r.Ok? ==> var selected := Selected(crates, now - maxAge, totalCount);
      r.value == Plan(selected, VersionsOf(selected, versionRows), present)
  {
    var latest := LatestDump(dumps);
    if latest.Err? {
      return Err(latest.error);
    }
    var selected := Retain(crates, now - maxAge);
    selected := SortByDownloads(selected);
    selected := Truncate(selected, totalCount);
    var versions := InitVersions(selected);
    versions := FillVersions(versions, versionRows);
    VersionsOfAfterFill(versions, selected, versionRows);
    var urls := PlanDownloads(selected, versions, present);
    return Ok(urls);
  }

  /** The version map after both loops: every selected id, with its non-yanked versions in file order. */
  function VersionsOf(crates: seq<CrateRow>, rows: seq<VersionRow>): (m: map<nat, seq<VersionRow>>)
    ensures m.Keys == Ids(crates)
  {
    map id | id in Ids(crates) :: Collected(rows, id)
  }

  lemma VersionsOfAfterFill(m: map<nat, seq<VersionRow>>, crates: seq<CrateRow>, rows: seq<VersionRow>)
    requires m.Keys == Ids(crates)
    requires forall id :: id in m ==> m[id] == [] + Collected(rows, id)
    ensures m == VersionsOf(crates, rows)
  {
    var v := VersionsOf(crates, rows);
    forall id | id in m
      ensures m[id] == v[id]
    {
      assert [] + Collected(rows, id) == Collected(rows, id);
    }
  }
}
