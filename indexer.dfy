/**
 * The indexer: the image-extension filter, the two passes of IndexFolder
 * (collect the image files of a folder walk, then index each one and count the
 * successes), the rule that skips an unchanged picture, and the thumbnail
 * name. The folder walk, the stat calls, the image decoding and the database
 * are inputs: a stat outcome, the walk's entries in visiting order, and
 * oracles for per-file success.
 */
module Indexer {
  import opened Wrappers
  import opened Text
  import opened Models

  const SupportedExtensions: seq<string> := [".jpg", ".jpeg", ".png", ".gif", ".bmp", ".webp"]

  /** Path separators on Windows, where the application runs. */
  predicate IsPathSeparator(c: char) {
    c == '\\' || c == '/'
  }

  const Separator: char := '\\'

  // ---------------------------------------------------------------------------
  // File names
  // ---------------------------------------------------------------------------

  /**
   * Where filepath.Ext's backward scan stops: the index of the last '.' of
   * the final path element, or |p| when that element has no '.'.
   */
  function ExtStart(p: string): (i: nat)
    ensures i <= |p|
    ensures i < |p| ==> p[i] == '.'
    ensures forall k :: i < k < |p| ==> p[k] != '.' && !IsPathSeparator(p[k])
  {
    if p == [] then 0
    else
      var c := p[|p| - 1];
      if IsPathSeparator(c) then |p|
      else if c == '.' then |p| - 1
      else
        var j := ExtStart(p[..|p| - 1]);
        if j == |p| - 1 then |p| else j
  }

  /** filepath.Ext: the suffix from the last '.' of the final path element, or empty. */
  function Ext(p: string): (r: string)
    ensures r != [] ==> r[0] == '.'
    ensures |r| <= |p| && forall k :: 0 <= k < |r| ==> r[k] == p[|p| - |r| + k]
    ensures forall k :: 0 < k < |r| ==> r[k] != '.' && !IsPathSeparator(r[k])
  {
    p[ExtStart(p)..]
  }

  /** The pure meaning of isSupportedImage. */
  predicate IsSupportedName(filename: string) {
    ToLower(Ext(filename)) in SupportedExtensions
  }

  /** isSupportedImage: a search of the extension list with an early return. */
  method IsSupportedImage(filename: string) returns (b: bool)
    ensures b <==> IsSupportedName(filename)
  {
    var ext := ToLower(Ext(filename));
    for i := 0 to |SupportedExtensions|
      invariant ext !in SupportedExtensions[..i]
    {
      if ext == SupportedExtensions[i] {
        return true;
      }
    }
    return false;
  }

  /** Two names with their separators and dots at the same places have their extensions at the same place. */
  lemma {:induction false} ExtStartByShape(p: string, p': string)
    requires |p| == |p'|
    requires forall k :: 0 <= k < |p| ==> (IsPathSeparator(p[k]) <==> IsPathSeparator(p'[k])) && (p[k] == '.' <==> p'[k] == '.')
    ensures ExtStart(p) == ExtStart(p')
  {
    if p != [] {
      var q, q' := p[..|p| - 1], p'[..|p'| - 1];
      assert forall k :: 0 <= k < |q| ==> q[k] == p[k] && q'[k] == p'[k];
      ExtStartByShape(q, q');
    }
  }

  /** Lower-casing maps separators to separators and '.' to '.', and nothing else to either. */
  lemma LowerCharShape(c: char)
    ensures IsPathSeparator(LowerChar(c)) <==> IsPathSeparator(c)
    ensures LowerChar(c) == '.' <==> c == '.'
  {
  }

  /** Names equal up to letter case agree letter by letter after lower-casing. */
  predicate SameUpToCase(f: string, g: string) {
    |f| == |g| && forall k :: 0 <= k < |f| ==> LowerChar(f[k]) == LowerChar(g[k])
  }

  lemma SameUpToCaseOfLower(f: string, g: string)
    requires ToLower(f) == ToLower(g)
    ensures SameUpToCase(f, g)
  {
    assert |f| == |ToLower(f)|;
    forall k | 0 <= k < |f| ensures LowerChar(f[k]) == LowerChar(g[k]) {
      assert ToLower(f)[k] == ToLower(g)[k];
    }
  }

  /** Names equal up to letter case have their separators and dots at the same places. */
  lemma SameShapeUpToCase(f: string, g: string)
    requires SameUpToCase(f, g)
    ensures forall k :: 0 <= k < |f| ==> (IsPathSeparator(f[k]) <==> IsPathSeparator(g[k])) && (f[k] == '.' <==> g[k] == '.')
  {
    forall k | 0 <= k < |f|
      ensures (IsPathSeparator(f[k]) <==> IsPathSeparator(g[k])) && (f[k] == '.' <==> g[k] == '.')
    {
      LowerCharShape(f[k]);
      LowerCharShape(g[k]);
    }
  }

  /** Names equal up to letter case have their extensions at the same place. */
  lemma ExtStartUpToCase(f: string, g: string)
    requires SameUpToCase(f, g)
    ensures ExtStart(f) == ExtStart(g)
  {
    SameShapeUpToCase(f, g);
    ExtStartByShape(f, g);
  }

  /** Names equal up to letter case have extensions equal up to letter case. */
  lemma ExtUpToCase(f: string, g: string)
    requires SameUpToCase(f, g)
    ensures ToLower(Ext(f)) == ToLower(Ext(g))
  {
    ExtStartUpToCase(f, g);
    var i := ExtStart(f);
    forall k | 0 <= k < |f| - i ensures ToLower(f[i..])[k] == ToLower(g[i..])[k] {
      assert LowerChar(f[i + k]) == LowerChar(g[i + k]);
    }
  }

  /** Extension matching ignores letter case. */
  lemma CaseInsensitive(f: string, g: string)
    requires ToLower(f) == ToLower(g)
    ensures IsSupportedName(f) <==> IsSupportedName(g)
  {
    SameUpToCaseOfLower(f, g);
    ExtUpToCase(f, g);
  }

  /** A name without extension, or whose final extension is not listed, is rejected. */
  lemma RejectedNames(f: string)
    ensures Ext(f) == [] ==> !IsSupportedName(f)
    ensures IsSupportedName(f) ==> 4 <= |Ext(f)| <= 5 && Ext(f)[0] == '.'
  {
  }

  /** The extension starts at the last '.' when no separator follows it. */
  lemma {:induction false} ExtFromLastDot(p: string, m: nat)
    requires m < |p| && p[|p| - m - 1] == '.'
    requires forall k :: |p| - m <= k < |p| ==> p[k] != '.' && !IsPathSeparator(p[k])
    ensures ExtStart(p) == |p| - m - 1 && |Ext(p)| == m + 1
  {
    if m > 0 {
      var q := p[..|p| - 1];
      assert forall k :: |q| - (m - 1) <= k < |q| ==> q[k] == p[k];
      ExtFromLastDot(q, m - 1);
    }
  }

  /** A final path element without '.' has no extension, whatever precedes its separator. */
  lemma {:induction false} NoExtAfterSeparator(p: string, m: nat)
    requires m < |p| && IsPathSeparator(p[|p| - m - 1])
    requires forall k :: |p| - m <= k < |p| ==> p[k] != '.' && !IsPathSeparator(p[k])
    ensures ExtStart(p) == |p| && Ext(p) == []
  {
    if m > 0 {
      var q := p[..|p| - 1];
      assert forall k :: |q| - (m - 1) <= k < |q| ==> q[k] == p[k];
      NoExtAfterSeparator(q, m - 1);
    }
  }

  /** Only the last extension counts, in any letter case. */
  lemma FinalExtensionOnly()
    ensures IsSupportedName("a.png.JPG")
  {
    var p := "a.png.JPG";
    ExtFromLastDot(p, 3);
    assert Ext(p) == ".JPG";
    assert ToLower(".JPG") == ".jpg";
  }

  /** A '.' before the last separator starts no extension. */
  lemma DotBeforeSeparator()
    ensures !IsSupportedName(".jpg\\b")
  {
    NoExtAfterSeparator(".jpg\\b", 1);
  }

  /** filepath.Base's removal of trailing separators. */
  function StripTrailingSeparators(p: string): (r: string)
    ensures |r| <= |p| && forall k :: 0 <= k < |r| ==> r[k] == p[k]
    ensures r != [] ==> !IsPathSeparator(r[|r| - 1])
    ensures forall k :: |r| <= k < |p| ==> IsPathSeparator(p[k])
  {
    if p != [] && IsPathSeparator(p[|p| - 1]) then StripTrailingSeparators(p[..|p| - 1]) else p
  }

  /** The text after the last separator. */
  function AfterLastSeparator(p: string): (r: string)
    ensures |r| <= |p| && forall k :: 0 <= k < |r| ==> r[k] == p[|p| - |r| + k]
    ensures forall k :: |p| - |r| <= k < |p| ==> !IsPathSeparator(p[k])
    ensures |r| < |p| ==> IsPathSeparator(p[|p| - |r| - 1])
  {
    if p == [] || IsPathSeparator(p[|p| - 1]) then []
    else
      var r := AfterLastSeparator(p[..|p| - 1]);
      r + [p[|p| - 1]]
  }

  /** filepath.Base: the last element of a path, "." for the empty path. */
  function Base(p: string): string {
    if p == [] then "."
    else
      var q := StripTrailingSeparators(p);
      if q == [] then [Separator] else AfterLastSeparator(q)
  }

  /** When position |p| - m - 1 holds the last separator, the text after it is the last m characters. */
  lemma AfterLastSeparatorAt(p: string, m: nat)
    requires m < |p| && IsPathSeparator(p[|p| - m - 1])
    requires forall k :: |p| - m <= k < |p| ==> !IsPathSeparator(p[k])
    ensures AfterLastSeparator(p) == p[|p| - m..]
  {
    var r := AfterLastSeparator(p);
    assert |r| <= m;
    assert |r| >= m;
  }

  /** The text after the last separator of a folder joined with a separator-free name is that name. */
  lemma AfterLastOfJoin(dir: string, name: string)
    requires forall k :: 0 <= k < |name| ==> !IsPathSeparator(name[k])
    ensures AfterLastSeparator(dir + [Separator] + name) == name
  {
    var p := dir + [Separator] + name;
    assert p[|dir|] == Separator;
    assert p[|p| - |name|..] == name;
    AfterLastSeparatorAt(p, |name|);
  }

  /** The base of a path made of a folder and a name is that name. */
  lemma BaseOfJoin(dir: string, name: string)
    requires name != [] && forall k :: 0 <= k < |name| ==> !IsPathSeparator(name[k])
    ensures Base(dir + [Separator] + name) == name
  {
    var p := dir + [Separator] + name;
    assert p[|p| - 1] == name[|name| - 1];
    assert StripTrailingSeparators(p) == p;
    AfterLastOfJoin(dir, name);
  }

  function ThumbnailName(imagePath: string): (r: string)
    ensures HasPrefix(r, "thumb_") && |r| == 6 + |Base(imagePath)|
  {
    "thumb_" + Base(imagePath)
  }

  /** The thumbnail path in the data folder's thumbnails directory. */
  function ThumbnailPath(dataDir: string, imagePath: string): string {
    dataDir + [Separator] + "thumbnails" + [Separator] + ThumbnailName(imagePath)
  }

  /** Two images with the same name in different folders share one thumbnail path. */
  lemma NamesakesShareThumbnail(dataDir: string, dir1: string, dir2: string, name: string)
    requires name != [] && forall k :: 0 <= k < |name| ==> !IsPathSeparator(name[k])
    ensures ThumbnailPath(dataDir, dir1 + [Separator] + name) == ThumbnailPath(dataDir, dir2 + [Separator] + name)
    ensures ThumbnailName(dir1 + [Separator] + name) == "thumb_" + name
  {
    BaseOfJoin(dir1, name);
    BaseOfJoin(dir2, name);
  }

  // ---------------------------------------------------------------------------
  // IndexFolder
  // ---------------------------------------------------------------------------

  /** One visit of the folder walk: a path, its base name, and whether the walk reported an error there. */
  datatype Entry = Entry(path: string, name: string, isDir: bool, walkError: bool)

  /** The outcome of os.Stat on the folder. */
  datatype FolderStat = Missing | NotDirectory | Directory

  datatype IndexError = FolderNotFound | NotADirectory(path: string) | ScanFailed

  datatype Progress = Progress(current: int, total: int, filename: string)

  /** What the walk callback keeps: files, not directories, with a supported extension. */
  predicate IsImageEntry(e: Entry) {
    !e.isDir && IsSupportedName(e.name)
  }

  /** The first pass: the image files of the walk in visiting order; a walk error aborts it. */
  function Scan(entries: seq<Entry>): Result<seq<string>, IndexError> {
    ScanWith(entries, IsImageEntry)
  }

  /** The first pass for a given filter of the entries. */
  function ScanWith(entries: seq<Entry>, keep: Entry -> bool): (r: Result<seq<string>, IndexError>)
    ensures r.Success? ==> |r.value| <= |entries|
    ensures r.Failure? ==> r.error == ScanFailed
  {
    if entries == [] then Success([])
    else
      var last := entries[|entries| - 1];
      match ScanWith(entries[..|entries| - 1], keep)
      case Failure(e) => Failure(e)
      case Success(files) =>
        if last.walkError then Failure(ScanFailed)
        else if keep(last) then Success(files + [last.path])
        else Success(files)
  }

  /** The scan fails exactly when the walk reported an error somewhere, and then with ScanFailed. */
  lemma {:induction false} ScanFailsOnWalkError(entries: seq<Entry>, keep: Entry -> bool)
    ensures ScanWith(entries, keep).Failure? <==> exists i :: 0 <= i < |entries| && entries[i].walkError
    ensures ScanWith(entries, keep).Failure? ==> ScanWith(entries, keep).error == ScanFailed
  {
    if entries != [] {
      var prefix := entries[..|entries| - 1];
      ScanFailsOnWalkError(prefix, keep);
      assert forall i :: 0 <= i < |prefix| ==> prefix[i] == entries[i];
    }
  }

  /** Every path a successful scan returns is that of a kept entry. */
  lemma {:induction false} ScanKeepsOnlyKept(entries: seq<Entry>, keep: Entry -> bool, f: string)
    requires ScanWith(entries, keep).Success? && f in ScanWith(entries, keep).value
    ensures exists i :: 0 <= i < |entries| && keep(entries[i]) && entries[i].path == f
  {
    var prefix := entries[..|entries| - 1];
    var last := entries[|entries| - 1];
    if f in ScanWith(prefix, keep).value {
      ScanKeepsOnlyKept(prefix, keep, f);
      var i :| 0 <= i < |prefix| && keep(prefix[i]) && prefix[i].path == f;
      assert entries[i] == prefix[i];
    } else {
      assert keep(entries[|entries| - 1]) && entries[|entries| - 1].path == f;
    }
  }

  /** A successful scan returns the path of every kept entry. */
  lemma {:induction false} ScanKeepsEveryKept(entries: seq<Entry>, keep: Entry -> bool, i: nat)
    requires ScanWith(entries, keep).Success? && i < |entries| && keep(entries[i])
    ensures entries[i].path in ScanWith(entries, keep).value
  {
    var prefix := entries[..|entries| - 1];
    if i < |prefix| {
      assert prefix[i] == entries[i];
      ScanKeepsEveryKept(prefix, keep, i);
    }
  }

  lemma {:induction false} ScanFailureExtends(entries: seq<Entry>, keep: Entry -> bool, k: nat)
    requires k <= |entries| && ScanWith(entries[..k], keep).Failure?
    ensures ScanWith(entries, keep).Failure?
  {
    if k < |entries| {
      var prefix := entries[..|entries| - 1];
      assert prefix[..k] == entries[..k];
      ScanFailureExtends(prefix, keep, k);
    } else {
      assert entries[..k] == entries;
    }
  }

  /** How many of the files the oracle reports as indexed. */
  function CountIndexed(files: seq<string>, indexImage: string -> bool): (r: nat)
    ensures r <= |files|
  {
    if files == [] then 0
    else CountIndexed(files[..|files| - 1], indexImage) + (if indexImage(files[|files| - 1]) then 1 else 0)
  }

  /**
   * The count is at most the number of files, all of them when every file
   * succeeds, none when every file fails, and it grows with the set of
   * succeeding files: a failing file only removes itself from the count.
   */
  lemma {:induction false} CountIndexedBounds(files: seq<string>, ok1: string -> bool, ok2: string -> bool)
    ensures (forall f :: f in files ==> ok1(f)) ==> CountIndexed(files, ok1) == |files|
    ensures (forall f :: f in files ==> !ok1(f)) ==> CountIndexed(files, ok1) == 0
    ensures (forall f :: f in files && ok1(f) ==> ok2(f)) ==> CountIndexed(files, ok1) <= CountIndexed(files, ok2)
  {
    if files != [] {
      var prefix := files[..|files| - 1];
      assert forall f :: f in prefix ==> f in files;
      assert files[|files| - 1] in files;
      CountIndexedBounds(prefix, ok1, ok2);
    }
  }

  /** The progress reports (i+1, total, base name) for the files in order. */
  function ProgressReports(files: seq<string>): (r: seq<Progress>)
    ensures |r| == |files|
  {
    seq(|files|, i requires 0 <= i < |files| => Progress(i + 1, |files|, Base(files[i])))
  }

  /** The first pass of IndexFolder: the walk callback appending image files. */
  method CollectImageFiles(entries: seq<Entry>) returns (r: Result<seq<string>, IndexError>)
    ensures r == Scan(entries)
  {
    var files: seq<string> := [];
    for i := 0 to |entries|
      invariant ScanWith(entries[..i], IsImageEntry) == Success(files)
    {
      assert entries[..i + 1][..i] == entries[..i];
      var e := entries[i];
      if e.walkError {
        ScanFailureExtends(entries, IsImageEntry, i + 1);
        ScanFailsOnWalkError(entries, IsImageEntry);
        return Failure(ScanFailed);
      }
      if !e.isDir {
        var supported := IsSupportedImage(e.name);
        if supported {
          files := files + [e.path];
        }
      }
    }
    assert entries[..|entries|] == entries;
    return Success(files);
  }

  /** The second pass of IndexFolder: report progress, index each file, count the successes. */
  method IndexFiles(files: seq<string>, indexImage: string -> bool, hasOnProgress: bool)
    returns (indexed: nat, progress: seq<Progress>)
    ensures indexed == CountIndexed(files, indexImage) && indexed <= |files|
    ensures progress == (if hasOnProgress then ProgressReports(files) else [])
  {
    indexed := 0;
    var total := |files|;
    progress := [];
    for i := 0 to total
      invariant indexed == CountIndexed(files[..i], indexImage)
      invariant progress == (if hasOnProgress then ProgressReports(files)[..i] else [])
    {
      assert files[..i + 1][..i] == files[..i];
      if hasOnProgress {
        assert ProgressReports(files)[..i + 1] == ProgressReports(files)[..i] + [ProgressReports(files)[i]];
        progress := progress + [Progress(i + 1, total, Base(files[i]))];
      }
      if indexImage(files[i]) {
        indexed := indexed + 1;
      }
    }
    assert files[..total] == files;
    assert ProgressReports(files)[..total] == ProgressReports(files);
  }

  /**
   * IndexFolder: checks the folder, collects its image files, then indexes
   * each one. A failing file is counted out without stopping the loop.
   */
  method IndexFolder(folder: string, stat: FolderStat, entries: seq<Entry>, indexImage: string -> bool, hasOnProgress: bool)
    returns (result: Result<nat, IndexError>, progress: seq<Progress>)
    ensures stat == Missing ==> result == Failure(FolderNotFound) && progress == []
    ensures stat == NotDirectory ==> result == Failure(NotADirectory(folder)) && progress == []
    ensures stat == Directory && Scan(entries).Failure? ==> result == Failure(ScanFailed) && progress == []
    ensures stat == Directory && Scan(entries).Success? ==>
      var files := Scan(entries).value;
      && result == Success(CountIndexed(files, indexImage))
      && result.value <= |files|
      && progress == (if hasOnProgress then ProgressReports(files) else [])
  {
    if stat == Missing {
      return Failure(FolderNotFound), [];
    }
    if stat == NotDirectory {
      return Failure(NotADirectory(folder)), [];
    }
    var scanned := CollectImageFiles(entries);
    if scanned.Failure? {
      ScanFailsOnWalkError(entries, IsImageEntry);
      return Failure(ScanFailed), [];
    }
    var indexed;
    indexed, progress := IndexFiles(scanned.value, indexImage, hasOnProgress);
    result := Success(indexed);
  }

  // ---------------------------------------------------------------------------
  // indexImage
  // ---------------------------------------------------------------------------

  /** What extractMetadata reads from the file. */
  datatype Metadata = Metadata(width: int, height: int, size: int, modTime: int)

  datatype IndexImageError = CannotStat | CannotExtract | CannotSave

  datatype IndexImageOutcome = Unchanged | Stored(picture: Picture) | Failed(error: IndexImageError)

  /**
   * indexImage, with the outside world as inputs: the stored row (None when
   * the lookup failed), the file's modification time (None when it cannot be
   * stat'ed), the metadata (None when the image cannot be decoded), whether
   * the upsert succeeds, and the save time. Thumbnail failures are ignored.
   */
  function IndexImageStep(imagePath: string, existing: Option<Picture>, modTime: Option<int>,
                          metadata: Option<Metadata>, saveSucceeds: bool, now: int): (r: IndexImageOutcome)
    ensures r == Unchanged <==> existing.Some? && modTime.Some? && modTime.value == existing.value.modifiedAt
    ensures r == Failed(CannotStat) <==> modTime.None?
    ensures modTime.Some? && r != Unchanged ==>
      r == (if metadata.None? then Failed(CannotExtract)
            else if !saveSucceeds then Failed(CannotSave)
            else Stored(Picture(imagePath, Base(imagePath), metadata.value.size, metadata.value.width,
                                metadata.value.height, metadata.value.modTime, metadata.value.modTime, now)))
    ensures r.Stored? ==> metadata.Some? && saveSucceeds && r.picture.filename == Base(imagePath)
  {
    if modTime.None? then Failed(CannotStat)
    else if existing.Some? && modTime.value == existing.value.modifiedAt then Unchanged
    else if metadata.None? then Failed(CannotExtract)
    else if !saveSucceeds then Failed(CannotSave)
    else
      var m := metadata.value;
      Stored(Picture(imagePath, Base(imagePath), m.size, m.width, m.height, m.modTime, m.modTime, now))
  }

  /** An unchanged picture is skipped whatever decoding and saving would do, and the skip counts as success. */
  lemma UnchangedIsSkipped(imagePath: string, stored: Picture, metadata: Option<Metadata>, saveSucceeds: bool, now: int)
    ensures IndexImageStep(imagePath, Some(stored), Some(stored.modifiedAt), metadata, saveSucceeds, now) == Unchanged
    ensures !IndexImageStep(imagePath, Some(stored), Some(stored.modifiedAt), metadata, saveSucceeds, now).Failed?
  {
  }

  /** A new or changed file that decodes and saves is stored, and skipped the next time while it is unchanged. */
  lemma {:induction false} StoredThenSkipped(imagePath: string, existing: Option<Picture>, t: int,
                                              m: Metadata, now: int, later: Option<Metadata>, saveLater: bool, now2: int)
    requires m.modTime == t
    requires !(existing.Some? && existing.value.modifiedAt == t)
    ensures var r := IndexImageStep(imagePath, existing, Some(t), Some(m), true, now);
      && r.Stored?
      && IndexImageStep(imagePath, Some(r.picture), Some(t), later, saveLater, now2) == Unchanged
  {
    var r := IndexImageStep(imagePath, existing, Some(t), Some(m), true, now);
    assert r.picture.modifiedAt == t;
  }
}
