/**
 * getImageUrl: the URL under which the frontend asks for a local picture,
 * the path with every backslash turned into a slash, after the "/localfile/"
 * prefix the backend middleware intercepts.
 */
module ImageUrl {
  import opened Text

  const LocalFilePrefix: string := "/localfile/"

  function ForwardChar(c: char): char {
    if c == '\\' then '/' else c
  }

  /** `replace(/\\/g, '/')` */
  function ToForwardSlashes(p: string): (r: string)
    ensures |r| == |p|
    ensures forall i :: 0 <= i < |p| ==> r[i] == ForwardChar(p[i])
  {
    if p == [] then [] else [ForwardChar(p[0])] + ToForwardSlashes(p[1..])
  }

  function GetImageUrl(filePath: string): (r: string)
    ensures HasPrefix(r, LocalFilePrefix)
    ensures |r| == |LocalFilePrefix| + |filePath|
    ensures '\\' !in r
    ensures forall i :: 0 <= i < |filePath| && filePath[i] != '\\' ==> r[|LocalFilePrefix| + i] == filePath[i]
  {
    var encoded := ToForwardSlashes(filePath);
    var r := LocalFilePrefix + encoded;
    assert forall i :: 0 <= i < |encoded| ==> r[|LocalFilePrefix| + i] == encoded[i];
    r
  }

  /** Converting an already converted path changes nothing. */
  lemma ToForwardSlashesIdempotent(p: string)
    ensures ToForwardSlashes(ToForwardSlashes(p)) == ToForwardSlashes(p)
  {
  }

  /** A path without backslashes appears verbatim after the prefix. */
  lemma NoBackslashVerbatim(p: string)
    requires '\\' !in p
    ensures ToForwardSlashes(p) == p
    ensures GetImageUrl(p) == LocalFilePrefix + p
  {
    assert forall i :: 0 <= i < |p| ==> p[i] != '\\';
  }
}
