/** `download_google_drive_file`: the file id is cut out of a share link with
    `url.split("/d/")[1].split("/")[0]`, and the file is fetched from a fixed
    download endpoint into a fixed local path. */
module Drive {
  import opened Wrappers
  import opened PyStrings

  /** The segment marker the id follows in a share link. */
  const Marker := "/d/"
  /** The download endpoint the id is appended to. */
  const UcPrefix := "https://drive.google.com/uc?id="
  /** The local file every Drive download is written to. */
  const OutputPath := "google_drive_file.mp4"

  /** The arguments of the one download call: where from, and where to. */
  datatype Download = Download(url: string, output: string)

  lemma NotContainsSlash(s: string)
    requires !Contains(s, "/")
    ensures '/' !in s
  {
    if '/' in s {
      var k :| 0 <= k < |s| && s[k] == '/';
      assert OccursAt(s, "/", k);
    }
  }

  /** The id the share link carries; `None` is the IndexError raised by `[1]`
      when the link has no `/d/` at all. */
  function DriveId(url: string): (id: Option<string>)
    ensures id.None? <==> !Contains(url, Marker)
    ensures id.Some? ==> '/' !in id.value
  {
    var halves := Split(url, Marker);
    if |halves| < 2 then
      None
    else
      var pieces := Split(halves[1], "/");
      NotContainsSlash(pieces[0]);
      Some(pieces[0])
  }

  /** Recovers the id from a download URL built on the fixed endpoint. */
  function IdOfDownloadUrl(u: string): Option<string>
  {
    if |UcPrefix| <= |u| && u[..|UcPrefix|] == UcPrefix then Some(u[|UcPrefix|..]) else None
  }

  /** The download the function asks for, or `None` when the id parse raises
      first, so that no download is attempted. */
  function DownloadGoogleDriveFile(url: string): (d: Option<Download>)
    ensures d.None? <==> !Contains(url, Marker)
    ensures d.Some? ==> d.value.output == OutputPath
    ensures d.Some? ==> IdOfDownloadUrl(d.value.url) == DriveId(url)
  {
    match DriveId(url)
    case None => None
    case Some(id) =>
      assert (UcPrefix + id)[..|UcPrefix|] == UcPrefix;
      Some(Download(UcPrefix + id, OutputPath))
  }

  /** The id is exactly the text that follows the first `/d/`, up to the next
      `/` or the end of the link. */
  lemma DriveIdIsSegmentAfterMarker(url: string, i: nat)
    requires IsFirstOccurrence(url, Marker, i)
    ensures DriveId(url).Some?
    ensures var id := DriveId(url).value;
      && i + 3 + |id| <= |url|
      && url[i + 3..i + 3 + |id|] == id
      && (i + 3 + |id| == |url| || url[i + 3 + |id|] == '/')
  {
  }

  /** Two slash-free segments starting at the same place and both ending at
      a `/` or the end are the same segment. */
  lemma SegmentUnique(s: string, a: string, b: string)
    requires '/' !in a && '/' !in b
    requires |a| <= |s| && s[..|a|] == a && (|a| == |s| || s[|a|] == '/')
    requires |b| <= |s| && s[..|b|] == b && (|b| == |s| || s[|b|] == '/')
    ensures a == b
  {
  }

  /** A marker placed right after a marker-free prefix is the first one. */
  lemma MarkerFirstAfterPrefix(prefix: string, rest: string)
    requires forall j :: 0 <= j < |prefix| ==> !OccursAt(prefix + Marker, Marker, j)
    ensures IsFirstOccurrence(prefix + Marker + rest, Marker, |prefix|)
  {
    var url := prefix + Marker + rest;
    var i := |prefix|;
    assert url[..i + 3] == prefix + Marker;
    assert url[i..i + 3] == url[..i + 3][i..i + 3];
    forall j | 0 <= j < i
      ensures !OccursAt(url, Marker, j)
    {
      assert url[..i + 3][j..j + 3] == url[j..j + 3];
      assert !OccursAt(prefix + Marker, Marker, j);
    }
  }

  /** Round trip: a share link built around a slash-free id gives that id
      back, whatever precedes the marker (as long as it holds no earlier
      marker) and whatever `/`-led suffix follows the id. */
  lemma DriveIdOfShareLink(prefix: string, id: string, suffix: string)
    requires forall j :: 0 <= j < |prefix| ==> !OccursAt(prefix + Marker, Marker, j)
    requires '/' !in id
    requires suffix == [] || suffix[0] == '/'
    ensures DriveId(prefix + Marker + (id + suffix)) == Some(id)
  {
    var url := prefix + Marker + (id + suffix);
    var i := |prefix|;
    MarkerFirstAfterPrefix(prefix, id + suffix);
    DriveIdIsSegmentAfterMarker(url, i);
    var got := DriveId(url).value;
    var tail := url[i + 3..];
    assert tail == id + suffix;
    assert tail[..|got|] == got;
    SegmentUnique(tail, got, id);
  }

  /** A link whose first `/d/` is its very end yields the empty id: the parse
      does not fail, it hands an empty id to the download. */
  lemma LinkEndingInMarkerGivesEmptyId(prefix: string)
    requires forall j :: 0 <= j < |prefix| ==> !OccursAt(prefix + Marker, Marker, j)
    ensures DriveId(prefix + Marker) == Some("")
    ensures DownloadGoogleDriveFile(prefix + Marker) == Some(Download(UcPrefix, OutputPath))
  {
    DriveIdOfShareLink(prefix, "", "");
    assert prefix + Marker + ("" + "") == prefix + Marker;
    assert UcPrefix + "" == UcPrefix;
  }
}
