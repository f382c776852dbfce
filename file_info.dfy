/** The file the printer is printing (RaspberryStreamer/FileInfoStatus.cs): its path stripped to
    the bare file name. */
module FileInfo {
  import opened Wrappers
  import opened Text

  /** The deserialised rr_fileinfo reply (its floating-point and date fields left out). */
  datatype FileInfoStatus = FileInfoStatus(err: int, size: int, printTime: int, printDuration: int,
                                           fileName: Option<string>, generatedBy: Option<string>)

  /** The part of a path after its last '/': a suffix of the path that holds no '/' and is either
      the whole path or preceded by a '/'. */
  function StripPath(name: string): (r: string)
    ensures |r| <= |name| && r == name[|name| - |r|..]
    ensures '/' !in r
    ensures |r| == |name| || name[|name| - |r| - 1] == '/'
  {
    name[LastIndexOf(name, '/') + 1..]
  }

  /** FileInfoStatus.cs:19-22: a null FileName stays null; otherwise the name after its last '/'. */
  function GetFileNameWithoutPath(f: FileInfoStatus): (r: Option<string>)
    ensures r.None? <==> f.fileName.None?
    ensures r.Some? ==> r.value == StripPath(f.fileName.value)
  {
    if f.fileName.None? then None else Some(StripPath(f.fileName.value))
  }

  /** Only one suffix has StripPath's three properties, so they define it. */
  lemma {:induction false} StripPathIsTheOnlySuch(name: string, r: string)
    requires |r| <= |name| && r == name[|name| - |r|..]
    requires '/' !in r
    requires |r| == |name| || name[|name| - |r| - 1] == '/'
    ensures r == StripPath(name)
  {
  }

  /** Stripping a stripped name changes nothing. */
  lemma {:induction false} StripPathIdempotent(name: string)
    ensures StripPath(StripPath(name)) == StripPath(name)
  {
    var r := StripPath(name);
    StripPathIsTheOnlySuch(r, r);
  }

  /** A path ending in '/' names no file: the result is empty. */
  lemma {:induction false} TrailingSlashGivesEmpty(name: string)
    requires |name| > 0 && name[|name| - 1] == '/'
    ensures StripPath(name) == ""
  {
  }

  /** A name with no '/' is returned whole. */
  lemma {:induction false} NoSlashGivesWholeName(name: string)
    requires '/' !in name
    ensures StripPath(name) == name
  {
  }
}
