/** Metadata and ThisRegion: asking the instance metadata service which
    availability zone this host is in, and deriving the region from it. */
module InstanceMetadata {
  import opened Wrappers
  import opened Faults

  const MetadataPrefix := "http://169.254.169.254/latest/meta-data/"
  const ZonePath := "placement/availability-zone"

  /** How an HTTP GET of one URL turns out: the request fails, reading the
      body fails, or the whole body arrives.  Go strings are byte strings;
      here each character stands for one byte. */
  datatype Response = RequestFailed(err: string) | ReadFailed(err: string) | Body(body: string)

  /** Go's (string, error) pair; err == None is a nil error. */
  datatype Reply = Reply(value: string, err: Option<string>)

  /** The metadata URL for `path`: the fixed prefix, then the path. */
  function MetadataURL(path: string): (url: string)
    ensures |url| == |MetadataPrefix| + |path|
    ensures url[..|MetadataPrefix|] == "http://169.254.169.254/latest/meta-data/"
    ensures url[|MetadataPrefix|..] == path
  {
    var url := MetadataPrefix + path;
    assert url[..|MetadataPrefix|] == MetadataPrefix;
    url
  }

  /** Metadata: GET the path's URL with `get`; the body unchanged on
      success, else "" together with the request or read error. */
  function Metadata(path: string, get: string -> Response): (r: Reply)
    ensures r.err.None? <==> get(MetadataURL(path)).Body?
    ensures r.err.None? ==> r.value == get(MetadataURL(path)).body
    ensures r.err.Some? ==> r.value == "" && r.err.value == get(MetadataURL(path)).err
  {
    match get(MetadataURL(path))
    case RequestFailed(e) => Reply("", Some(e))
    case ReadFailed(e) => Reply("", Some(e))
    case Body(b) => Reply(b, None)
  }

  /** ThisRegion: the availability zone with its last character dropped
      ("eu-west-1a" gives "eu-west-1").  An error is passed through
      untouched; an empty zone makes the slice panic. */
  function ThisRegion(get: string -> Response): (r: Result<Reply, Fault>)
    ensures var zone := Metadata(ZonePath, get);
      && (r.Failure? <==> zone.err.None? && zone.value == "")
      && (r.Failure? ==> r.error == EmptyZone)
      && (zone.err.Some? ==> r == Success(zone))
      && (r.Success? && r.value.err.None? ==> zone.err.None?)
      && (zone.err.None? && zone.value != "" ==>
            && r.Success? && r.value.err.None?
            && |r.value.value| + 1 == |zone.value|
            && zone.value == r.value.value + [zone.value[|zone.value| - 1]])
  {
    var zone := Metadata(ZonePath, get);
    if zone.err.None? then
      if |zone.value| == 0 then Failure(EmptyZone)
      else Success(Reply(zone.value[..|zone.value| - 1], None))
    else Success(zone)
  }

  /** The zone ThisRegion asks for is the one at the availability-zone URL,
      and a successful region is a proper prefix of that zone. */
  lemma RegionFromZoneURL(get: string -> Response, zone: string)
    requires get("http://169.254.169.254/latest/meta-data/placement/availability-zone") == Body(zone)
    requires |zone| > 0
    ensures ThisRegion(get) == Success(Reply(zone[..|zone| - 1], None))
    ensures zone[..|zone| - 1] < zone
  {
    assert MetadataURL(ZonePath) == "http://169.254.169.254/latest/meta-data/placement/availability-zone";
  }
}
