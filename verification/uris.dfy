/** The part of `android.net.Uri` the provider relies on: a hierarchical URI
    seen as scheme, authority and its decoded path segments. */
module Uris {
  import opened Results

  /** `segments` is what `getPathSegments()` returns; Android never yields an
      empty segment, so `a//b` and `a/b` have the same segments. */
  datatype Uri = Uri(scheme: string, authority: string, segments: seq<string>)

  /** `getLastPathSegment()`: the last segment, or null for an empty path. */
  function LastPathSegment(u: Uri): (r: Option<string>)
    ensures r.None? <==> |u.segments| == 0
    ensures r.Some? ==> r.value in u.segments
  {
    if |u.segments| == 0 then None else Some(u.segments[|u.segments| - 1])
  }

  /** `buildUpon().appendPath(segment).build()`: one more segment at the end,
      everything else kept. */
  function AppendPath(u: Uri, segment: string): (r: Uri)
    ensures r.scheme == u.scheme && r.authority == u.authority
    ensures LastPathSegment(r) == Some(segment)
    ensures |r.segments| == |u.segments| + 1 && r.segments[..|u.segments|] == u.segments
  {
    Uri(u.scheme, u.authority, u.segments + [segment])
  }

  /** The path text: each segment preceded by a slash. */
  function PathText(segments: seq<string>): (text: string)
    ensures |text| >= |segments|
    ensures |segments| > 0 ==> text[0] == '/'
  {
    if |segments| == 0 then ""
    else PathText(segments[..|segments| - 1]) + "/" + segments[|segments| - 1]
  }

  /** `toString()` of a hierarchical URI with no query and no fragment. */
  function Render(u: Uri): (text: string)
    ensures u.scheme + "://" + u.authority <= text
    ensures |u.segments| == 0 <==> text == u.scheme + "://" + u.authority
  {
    u.scheme + "://" + u.authority + PathText(u.segments)
  }

  /** Appending a segment appends a slash and the segment to the text. */
  lemma RenderAppendPath(u: Uri, segment: string)
    ensures Render(AppendPath(u, segment)) == Render(u) + "/" + segment
  {
    var segs := u.segments + [segment];
    assert segs[..|segs| - 1] == u.segments;
  }
}
