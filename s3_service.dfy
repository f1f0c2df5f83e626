// S3Service: where uploads are stored in the object store and how a stored
// object's URL is turned back into a bucket and key to be presigned. The
// object store itself (putObject, getUrl, the presigner), java.net.URL's
// parsing and the UUID are inputs.
module S3Service {
  import opened Wrappers
  import opened Strings

  /** The host and path java.net.URL reports for a URL. */
  datatype UrlParts = UrlParts(host: string, path: string)

  /** An object of the store. */
  datatype S3Object = S3Object(bucket: string, key: string)

  /** The configured bucket names. */
  datatype Buckets = Buckets(thumbnails: string, videos: string)

  const ThumbnailPrefix := "thumbnails/"
  const VideoPrefix := "videos/"

  /** The path without one leading '/'. */
  function StripSlash(path: string): (r: string)
    ensures StartsWith(path, "/") ==> "/" + r == path
    ensures !StartsWith(path, "/") ==> r == path
  {
    if StartsWith(path, "/") then path[1..] else path
  }

  /**
   * The bucket and key generatePresignedUrl reads off a URL: a host with
   * ".s3." names the bucket before its first ".s3." (virtual-hosted style);
   * a host starting with "s3." carries the bucket as the path's first
   * segment (path style); any other URL is taken to be in the videos bucket.
   */
  function Locate(url: UrlParts, videosBucket: string): (r: S3Object)
    ensures Contains(url.host, ".s3.") ==>
      OccursAt(url.host, ".s3.", |r.bucket|) && url.host[..|r.bucket|] == r.bucket &&
      (forall i :: 0 <= i < |r.bucket| ==> !OccursAt(url.host, ".s3.", i)) &&
      r.key == StripSlash(url.path)
    ensures !Contains(url.host, ".s3.") && !StartsWith(url.host, "s3.") ==>
      r == S3Object(videosBucket, StripSlash(url.path))
    ensures !Contains(url.host, ".s3.") && StartsWith(url.host, "s3.") && '/' !in url.path ==>
      r == S3Object(videosBucket, url.path)
  {
    if Contains(url.host, ".s3.") then
      S3Object(url.host[..IndexOf(url.host, ".s3.")], StripSlash(url.path))
    else if StartsWith(url.host, "s3.") then
      var parts := SplitLimit(url.path, '/', 3);
      if |parts| >= 2 then S3Object(parts[1], if |parts| > 2 then parts[2] else "")
      else S3Object(videosBucket, StripSlash(url.path))
    else S3Object(videosBucket, StripSlash(url.path))
  }

  /**
   * generatePresignedUrl. `url` is the parse of `videoUrl` (None: malformed);
   * `sign` is the presigner (None: it threw). An empty key, a malformed URL
   * or a failing presigner leave the URL as it was.
   */
  function GeneratePresignedUrl(videoUrl: string, url: Option<UrlParts>, videosBucket: string,
                                sign: S3Object -> Option<string>): (r: string)
    ensures url.None? ==> r == videoUrl
    ensures url.Some? && Locate(url.value, videosBucket).key == "" ==> r == videoUrl
    ensures r != videoUrl ==>
      url.Some? && Locate(url.value, videosBucket).key != "" && sign(Locate(url.value, videosBucket)) == Some(r)
    ensures url.Some? && Locate(url.value, videosBucket).key != "" && sign(Locate(url.value, videosBucket)).Some? ==>
      r == sign(Locate(url.value, videosBucket)).value
  {
    if url.None? then videoUrl
    else
      var o := Locate(url.value, videosBucket);
      if o.key == "" then videoUrl
      else
        match sign(o)
        case None => videoUrl
        case Some(signed) => signed
  }

  /** generateFileName: the UUID, then the name's suffix from its last '.' (none without one). */
  function GenerateFileName(originalFilename: Option<string>, uuid: string): (r: string)
    ensures StartsWith(r, uuid)
    ensures originalFilename.None? || '.' !in originalFilename.value ==> r == uuid
    ensures originalFilename.Some? && '.' in originalFilename.value ==>
      |r| > |uuid| && r[|uuid|] == '.' && '.' !in r[|uuid| + 1..] && EndsWith(originalFilename.value, r[|uuid|..])
  {
    if originalFilename.Some? && Contains(originalFilename.value, ".") then
      ContainsChar(originalFilename.value, '.');
      uuid + DotSuffix(originalFilename.value)
    else
      if originalFilename.Some? then
        ContainsChar(originalFilename.value, '.');
        uuid
      else uuid
  }

  /** uploadThumbnail: the object written, in the thumbnails bucket under "thumbnails/". */
  function UploadThumbnail(originalFilename: Option<string>, uuid: string, buckets: Buckets): (r: S3Object)
    ensures r.bucket == buckets.thumbnails
    ensures StartsWith(r.key, ThumbnailPrefix) && r.key[|ThumbnailPrefix|..] == GenerateFileName(originalFilename, uuid)
  {
    S3Object(buckets.thumbnails, ThumbnailPrefix + GenerateFileName(originalFilename, uuid))
  }

  /** uploadVideo: the object written, in the videos bucket under "videos/". */
  function UploadVideo(originalFilename: Option<string>, uuid: string, buckets: Buckets): (r: S3Object)
    ensures r.bucket == buckets.videos
    ensures StartsWith(r.key, VideoPrefix) && r.key[|VideoPrefix|..] == GenerateFileName(originalFilename, uuid)
  {
    S3Object(buckets.videos, VideoPrefix + GenerateFileName(originalFilename, uuid))
  }

  /** The first '/' of a text whose first segment is '/'-free is right after that segment. */
  lemma {:induction false} FirstSlash(a: string, rest: string)
    requires '/' !in a
    ensures FirstIndexOf(a + "/" + rest, '/') == |a|
    ensures (a + "/" + rest)[..|a|] == a && (a + "/" + rest)[|a| + 1..] == rest
  {
    var s := a + "/" + rest;
    var j := FirstIndexOf(s, '/');
    assert s[|a|] == '/';
    assert forall i :: 0 <= i < |a| ==> s[i] == a[i];
  }

  /** Splitting at a first '/' that ends a '/'-free segment gives that segment, then the rest split. */
  lemma {:induction false} SplitAtSlash(a: string, rest: string, limit: nat)
    requires '/' !in a && limit >= 2
    ensures SplitLimit(a + "/" + rest, '/', limit) == [a] + SplitLimit(rest, '/', limit - 1)
  {
    FirstSlash(a, rest);
  }

  /** A text cannot occur where the first of its characters is missing. */
  lemma {:induction false} NoOccurrenceAt(s: string, p: string, i: int)
    requires 0 <= i < |s| && |p| > 0 && s[i] != p[0]
    ensures !OccursAt(s, p, i)
  {
    if i + |p| <= |s| {
      assert s[i..i + |p|][0] == s[i];
    }
  }

  /** A virtual-hosted URL "bucket.s3.region/key" gives back its bucket and key. */
  lemma {:induction false} VirtualHostedRoundTrip(bucket: string, region: string, key: string, videosBucket: string)
    requires '.' !in bucket
    ensures Locate(UrlParts(bucket + ".s3." + region, "/" + key), videosBucket) == S3Object(bucket, key)
  {
    var host := bucket + ".s3." + region;
    assert OccursAt(host, ".s3.", |bucket|);
    assert forall i :: 0 <= i < |bucket| ==> host[i] == bucket[i] && host[i] != '.';
    forall i | 0 <= i < |bucket|
      ensures !OccursAt(host, ".s3.", i)
    {
      NoOccurrenceAt(host, ".s3.", i);
    }
    assert IndexOf(host, ".s3.") == |bucket|;
    assert StartsWith("/" + key, "/");
    assert ("/" + key)[1..] == key;
  }

  /** A path-style URL "s3.region/bucket/key" gives back its bucket and key. */
  lemma {:induction false} PathStyleRoundTrip(host: string, bucket: string, key: string, videosBucket: string)
    requires StartsWith(host, "s3.") && !Contains(host, ".s3.")
    requires '/' !in bucket
    ensures Locate(UrlParts(host, "/" + bucket + "/" + key), videosBucket) == S3Object(bucket, key)
  {
    var path := "/" + bucket + "/" + key;
    assert path == "" + "/" + (bucket + "/" + key);
    SplitAtSlash("", bucket + "/" + key, 3);
    SplitAtSlash(bucket, key, 2);
    assert SplitLimit(key, '/', 1) == [key];
    assert SplitLimit(path, '/', 3) == ["", bucket, key];
  }

  /** A path-style URL naming only a bucket has no key, so it is not presigned. */
  lemma {:induction false} BucketOnlyUnchanged(videoUrl: string, host: string, bucket: string, videosBucket: string,
                            sign: S3Object -> Option<string>)
    requires StartsWith(host, "s3.") && !Contains(host, ".s3.")
    requires '/' !in bucket
    ensures GeneratePresignedUrl(videoUrl, Some(UrlParts(host, "/" + bucket)), videosBucket, sign) == videoUrl
  {
    var path := "/" + bucket;
    FirstSlash("", bucket);
    assert path == "" + "/" + bucket;
    assert '/' !in bucket;
    assert FirstIndexOf(bucket, '/') == -1;
    assert SplitLimit(bucket, '/', 2) == [bucket];
    assert SplitLimit(path, '/', 3) == ["", bucket];
  }

  /**
   * An uploaded video, addressed by its virtual-hosted URL, is located as
   * the object written, so a working presigner signs that very object.
   */
  lemma {:induction false} UploadedVideoPresigns(originalFilename: Option<string>, uuid: string, buckets: Buckets, region: string,
                              sign: S3Object -> Option<string>)
    requires '.' !in buckets.videos
    requires sign(UploadVideo(originalFilename, uuid, buckets)).Some?
    ensures var o := UploadVideo(originalFilename, uuid, buckets);
      var u := buckets.videos + ".s3." + region + "/" + o.key;
      GeneratePresignedUrl(u, Some(UrlParts(buckets.videos + ".s3." + region, "/" + o.key)), buckets.videos, sign) ==
        sign(o).value
  {
    var o := UploadVideo(originalFilename, uuid, buckets);
    VirtualHostedRoundTrip(buckets.videos, region, o.key, buckets.videos);
  }
}
