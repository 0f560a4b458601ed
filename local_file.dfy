/**
 * The path logic of the local-file middleware: requests under "/localfile/"
 * are answered from the file system after the prefix is removed and the two
 * escapes "%20" and "%5C" are decoded; every other request goes to the next
 * handler. The existence check is an input.
 */
module LocalFile {
  import opened Text
  import opened ImageUrl

  /** The outcome of os.Stat on the decoded path. */
  datatype StatResult = Exists | DoesNotExist | OtherError

  datatype Response = PassThrough | NotFound | ServeFile(path: string)

  /** The file path of a request: the URL path without the prefix, removed once. */
  function ExtractFilePath(urlPath: string): (r: string)
    ensures HasPrefix(urlPath, LocalFilePrefix) ==> urlPath == LocalFilePrefix + r
  {
    TrimPrefix(urlPath, LocalFilePrefix)
  }

  /** Every "%20" becomes a space, then every "%5C" a backslash. */
  function DecodeFilePath(urlPath: string): string {
    ReplaceAll(ReplaceAll(ExtractFilePath(urlPath), "%20", " "), "%5C", "\\")
  }

  /** The middleware's answer to a request, given the stat outcome of the decoded path. */
  function Handle(urlPath: string, stat: StatResult): (r: Response)
    ensures r == PassThrough <==> !HasPrefix(urlPath, LocalFilePrefix)
    ensures r == NotFound <==> HasPrefix(urlPath, LocalFilePrefix) && stat == DoesNotExist
    ensures r.ServeFile? ==> r.path == DecodeFilePath(urlPath) && stat != DoesNotExist
  {
    if !HasPrefix(urlPath, LocalFilePrefix) then PassThrough
    else if stat == DoesNotExist then NotFound
    else ServeFile(DecodeFilePath(urlPath))
  }

  /** The prefix is removed once: a doubled prefix leaves one copy in the file path. */
  lemma PrefixRemovedOnce(rest: string)
    ensures ExtractFilePath(LocalFilePrefix + LocalFilePrefix + rest) == LocalFilePrefix + rest
  {
    var u := LocalFilePrefix + LocalFilePrefix + rest;
    assert HasPrefix(u, LocalFilePrefix);
    assert u == LocalFilePrefix + (LocalFilePrefix + rest);
  }

  /** The decoded path contains neither escape. */
  lemma DecodedHasNoEscapes(urlPath: string)
    ensures !Occurs("%20", DecodeFilePath(urlPath))
    ensures !Occurs("%5C", DecodeFilePath(urlPath))
  {
    var once := ReplaceAll(ExtractFilePath(urlPath), "%20", " ");
    ReplaceAllLeavesNoPattern(ExtractFilePath(urlPath), "%20", ' ');
    ReplaceAllLeavesNoPattern(once, "%5C", '\\');
    ReplaceAllCreatesNoOccurrence(once, "%5C", '\\', "%20");
  }

  /**
   * For a local path without '%', the middleware decodes the frontend's URL
   * back to the path with every backslash replaced by a slash.
   */
  lemma RoundTrip(p: string)
    requires '%' !in p
    ensures DecodeFilePath(GetImageUrl(p)) == ToForwardSlashes(p)
  {
    var f := ToForwardSlashes(p);
    var u := GetImageUrl(p);
    assert u == LocalFilePrefix + f;
    assert ExtractFilePath(u) == f;
    assert '%' !in f by {
      forall i | 0 <= i < |f| ensures f[i] != '%' {
        assert f[i] == ForwardChar(p[i]);
        assert p[i] in p;
      }
    }
    NoCharNoOccurrence("%20", f);
    ReplaceAllAbsent(f, "%20", " ");
    NoCharNoOccurrence("%5C", f);
    ReplaceAllAbsent(f, "%5C", "\\");
  }

  /** A name that really contains "%20" is served from a different path. */
  lemma PercentInNameIsDecoded()
    ensures DecodeFilePath(GetImageUrl("a%20b")) == "a b"
  {
    NoBackslashVerbatim("a%20b");
    assert GetImageUrl("a%20b") == LocalFilePrefix + "a%20b";
    assert ExtractFilePath(GetImageUrl("a%20b")) == "a%20b";
    assert ReplaceAll("b", "%20", " ") == "b";
    assert "a%20b"[1..] == "%20b" && "%20b"[..3] == "%20" && "%20b"[3..] == "b";
    assert ReplaceAll("%20b", "%20", " ") == " b";
    assert ReplaceAll("a%20b", "%20", " ") == "a b";
    NoCharNoOccurrence("%5C", "a b");
    ReplaceAllAbsent("a b", "%5C", "\\");
  }

  /** Requests outside the prefix reach the next handler whatever the file system says. */
  lemma OtherRequestsPassThrough(urlPath: string, s1: StatResult, s2: StatResult)
    requires !HasPrefix(urlPath, LocalFilePrefix)
    ensures Handle(urlPath, s1) == Handle(urlPath, s2) == PassThrough
  {
  }
}
