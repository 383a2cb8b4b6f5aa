/** How the uploader names a matched file: the path relative to the search
    root (`getFilename`), then the object key, which is either that relative
    path or the configured prefix, a slash and the path's last segment. */
module ObjectNames {

  import opened Wrappers
  import opened JavaStrings

  /** The last '/'-separated segment of `path`, trailing slashes ignored: the
      reference the key rule is checked against. */
  function Basename(path: string): (b: string)
    ensures '/' !in b
    ensures var t := StripTrailing(path, '/');
            |b| <= |t| && b == t[|t| - |b|..] && (|b| < |t| ==> t[|t| - |b| - 1] == '/')
  {
    AfterLast(StripTrailing(path, '/'), '/')
  }

  /** `fileName.split("/")[length - 1]`: `None` when the split is empty, where
      Java throws an ArrayIndexOutOfBoundsException. */
  function LastSegment(fileName: string): (r: Option<string>)
    ensures r.None? <==> fileName != [] && OnlyOf(fileName, '/')
    ensures r.Some? ==> r.value == Basename(fileName)
  {
    var items := Split(fileName, '/');
    if items == [] then None
    else
      var t := StripTrailing(fileName, '/');
      assert Pieces(t, '/') == items by {
        PiecesOfJoin(items, '/');
      }
      assert items[|items| - 1] == AfterLast(t, '/') by {
        LastPiece(t, '/');
      }
      Some(items[|items| - 1])
  }

  /** `getFilename`: the file's remote path from `searchIndex` on; `None` where
      `substring` throws a StringIndexOutOfBoundsException. */
  function GetFilename(remote: string, searchIndex: int): (r: Option<string>)
    ensures r.Some? <==> 0 <= searchIndex <= |remote|
    ensures r.Some? ==> |r.value| == |remote| - searchIndex
    ensures r.Some? ==> remote[..searchIndex] + r.value == remote
  {
    if 0 <= searchIndex <= |remote| then Some(remote[searchIndex..]) else None
  }

  /** The object key for a file: with a non-null, non-empty prefix it is
      prefix + "/" + the last segment of the relative name; otherwise the
      relative name itself. `None` where the last segment does not exist. */
  function ObjectName(fileName: string, prefix: Option<string>): (r: Option<string>)
    ensures prefix == None || prefix == Some("") ==> r == Some(fileName)
    ensures prefix.Some? && prefix.value != "" ==>
              (r.None? <==> fileName != [] && OnlyOf(fileName, '/'))
    ensures prefix.Some? && prefix.value != "" && r.Some? ==>
              r.value == prefix.value + "/" + Basename(fileName)
  {
    if prefix.Some? && prefix.value != "" then
      match LastSegment(fileName)
      case None => None
      case Some(name) => Some(prefix.value + "/" + name)
    else
      Some(fileName)
  }
}
