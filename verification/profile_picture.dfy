/**
 * The profile-picture widget: the resize rule applied before upload, the
 * names and paths under which a picture is stored and removed, the
 * cache-busting display URL, and the widget's own state (`uploading`,
 * `imageUrl`, `error`) as its two handlers change it. Storage and database
 * calls are recorded as operations; what they answer is passed in.
 */
module ProfilePicture {
  import opened Wrappers
  import opened Strings

  // ------------------------------------------------------------ resizing

  /** The `maxWidth` argument's default. */
  const DefaultMaxWidth: nat := 800

  /** `Math.round(n / d)` for non-negative `n`: the nearest integer, halves rounded up. */
  function RoundDiv(n: nat, d: nat): (q: nat)
    requires d > 0
    ensures -(d as int) < 2 * (q * d - n) <= d
  {
    var q := (2 * n + d) / (2 * d);
    assert 2 * d * q <= 2 * n + d < 2 * d * q + 2 * d;
    q
  }

  /** Rounding a quotient below `h` gives at most `h`. */
  lemma RoundBelow(n: nat, d: nat, h: nat)
    requires d > 0 && n < h * d
    ensures RoundDiv(n, d) <= h
  {
    var q := RoundDiv(n, d);
    if q > h {
      MulAtLeast(q, h + 1, d);
    }
  }

  lemma MulAtLeast(a: nat, b: nat, d: nat)
    requires a >= b
    ensures a * d >= b * d
  {
    var e := a - b;
    assert a * d == b * d + e * d;
  }

  /**
   * The dimension rule of `compressImage`: an image wider than `maxWidth` is
   * scaled to that width, its height rounded to the nearest pixel (halves
   * up) so as to keep the aspect ratio; a narrower one keeps its size.
   */
  method ScaleDimensions(imgWidth: nat, imgHeight: nat, maxWidth: nat) returns (width: nat, height: nat)
    ensures imgWidth <= maxWidth ==> width == imgWidth && height == imgHeight
    ensures imgWidth > maxWidth ==>
      width == maxWidth &&
      -(imgWidth as int) < 2 * (height * imgWidth - imgHeight * maxWidth) <= imgWidth
    ensures width <= maxWidth && width <= imgWidth && height <= imgHeight
  {
    width := imgWidth;
    height := imgHeight;
    if width > maxWidth {
      height := RoundDiv(height * maxWidth, width);
      if imgHeight > 0 {
        assert imgHeight * maxWidth < imgHeight * imgWidth;
        RoundBelow(imgHeight * maxWidth, imgWidth, imgHeight);
      }
      width := maxWidth;
    }
  }

  // ------------------------------------------------------- names and URLs

  /** `profile-<userId>-<Date.now()>.jpg` */
  function UploadName(userId: string, now: nat): (name: string)
    ensures '/' !in userId && '?' !in userId ==> '/' !in name && '?' !in name
  {
    var stamp := NatToString(now);
    assert forall k :: 0 <= k < |stamp| ==> IsDigit(stamp[k]);
    "profile-" + userId + "-" + stamp + ".jpg"
  }

  /** Uploads of one user at different times get different names. */
  lemma UploadNamesDistinct(userId: string, t1: nat, t2: nat)
    requires t1 != t2
    ensures UploadName(userId, t1) != UploadName(userId, t2)
  {
    var prefix := "profile-" + userId + "-";
    var s1, s2 := NatToString(t1), NatToString(t2);
    if UploadName(userId, t1) == UploadName(userId, t2) {
      var name := UploadName(userId, t1);
      assert name == prefix + s1 + ".jpg";
      assert name == prefix + s2 + ".jpg";
      assert |s1| == |s2|;
      assert s1 == name[|prefix|..|prefix| + |s1|];
      assert s2 == name[|prefix|..|prefix| + |s2|];
      NatToStringInjective(t1, t2);
    }
  }

  /** The path in the `profile-pictures` bucket: `public/<name>`. */
  function UploadPath(name: string): string {
    "public/" + name
  }

  /** `url.split('?')[0]`: the URL without its query. */
  function WithoutQuery(url: string): (r: string)
    ensures '?' !in r
  {
    SplitOn(url, '?')[0]
  }

  /** The last `/`-separated segment. */
  function LastSegment(s: string): string {
    var parts := SplitOn(s, '/');
    parts[|parts| - 1]
  }

  /** `${url}?t=${time}` */
  function Stamped(url: string, time: nat): string {
    url + "?t=" + NatToString(time)
  }

  /** The URL shown for a stored picture: its query replaced by a fresh `?t=` stamp. */
  function DisplayUrl(existingUrl: string, time: nat): string {
    Stamped(WithoutQuery(existingUrl), time)
  }

  /** The path `handleRemove` deletes: `public/` and the last segment of the URL without its query. */
  function RemovalPath(imageUrl: string): string {
    UploadPath(LastSegment(WithoutQuery(imageUrl)))
  }

  /** A URL with no query is its own query-less form; a stamp is cut off again. */
  lemma WithoutQueryStamped(url: string, time: nat)
    requires '?' !in url
    ensures WithoutQuery(url) == url
    ensures WithoutQuery(Stamped(url, time)) == url
  {
    SplitOnHead(url, '?', "t=" + NatToString(time));
    assert Stamped(url, time) == url + ['?'] + ("t=" + NatToString(time));
  }

  /** Re-stamping replaces the old stamp: only the last time shows. */
  lemma DisplayUrlRestamp(url: string, t1: nat, t2: nat)
    ensures DisplayUrl(DisplayUrl(url, t1), t2) == DisplayUrl(url, t2)
    ensures WithoutQuery(DisplayUrl(url, t1)) == WithoutQuery(url)
  {
    WithoutQueryStamped(WithoutQuery(url), t1);
  }

  /** The stamp added for display does not change the path that removal deletes. */
  lemma RemovalIgnoresStamp(url: string, time: nat)
    ensures RemovalPath(DisplayUrl(url, time)) == RemovalPath(url)
    ensures RemovalPath(Stamped(WithoutQuery(url), time)) == RemovalPath(url)
  {
    DisplayUrlRestamp(url, time, time);
  }

  /**
   * The removal path recovers the upload path: for a public URL ending in
   * `/<name>` and a name with no `/` or `?`, with or without a stamp.
   */
  lemma RemovalPathOfUpload(base: string, name: string, time: nat)
    requires '?' !in base && '/' !in name && '?' !in name
    ensures RemovalPath(base + "/" + name) == UploadPath(name)
    ensures RemovalPath(Stamped(base + "/" + name, time)) == UploadPath(name)
  {
    var url := base + "/" + name;
    assert '?' !in url by {
      assert forall k :: 0 <= k < |url| ==> url[k] in base || url[k] == '/' || url[k] in name;
    }
    WithoutQueryStamped(url, time);
    SplitOnLast(base, '/', name);
    assert url == base + ['/'] + name;
  }

  /** The whole cycle: the picture uploaded for a user is the one its removal deletes. */
  lemma UploadThenRemove(base: string, userId: string, now: nat, time: nat)
    requires '?' !in base && '/' !in userId && '?' !in userId
    ensures RemovalPath(Stamped(base + "/" + UploadName(userId, now), time)) == UploadPath(UploadName(userId, now))
  {
    RemovalPathOfUpload(base, UploadName(userId, now), time);
  }

  // ------------------------------------------------------ widget state

  /** A storage or database call the widget makes. */
  datatype Operation =
    | UploadFile(path: string)                            // storage `upload` into `profile-pictures`
    | RemoveFile(path: string)                            // storage `remove`
    | SetPicture(userId: string, url: Option<string>)     // `majstori.profile_picture` of the user

  const UploadFallback := "Failed to upload image"
  const RemoveFallback := "Failed to remove image"
  const PublicUrlMissing := "Public URL not found in response from Supabase."
  const UploadFailedPrefix := "Upload failed: "

  /** `err.message || fallback`: an absent or empty message gives the fallback. */
  function ErrorText(message: string, fallback: string): (r: string)
    ensures fallback != [] ==> r != []
  {
    if message == [] then fallback else message
  }

  /** How an upload attempt ends, given what the external calls answer. */
  datatype UploadOutcome =
    | NoFile
    | CompressFailed(message: string)
    | UploadFailed(message: string)
    | NoPublicUrl
    | UpdateFailed(publicUrl: string, message: string)
    | Uploaded(publicUrl: string)

  /**
   * The branches of `handleFileChange`: `compressError` is the message of a
   * failed compression ("" for a failure without one), `uploadError` the
   * error storage answers, `publicUrl` the public URL it reports, and
   * `updateError` the database's error.
   */
  function AttemptUpload(file: bool, compressError: Option<string>, uploadError: Option<string>,
                         publicUrl: Option<string>, updateError: Option<string>): (o: UploadOutcome)
    ensures o.Uploaded? <==>
      file && compressError.None? && uploadError.None? && publicUrl.Some? && publicUrl.value != [] &&
      updateError.None?
    ensures o.Uploaded? || o.UpdateFailed? ==> publicUrl.Some? && o.publicUrl == publicUrl.value
  {
    if !file then NoFile
    else if compressError.Some? then CompressFailed(compressError.value)
    else if uploadError.Some? then UploadFailed(uploadError.value)
    else if publicUrl.None? || publicUrl.value == [] then NoPublicUrl
    else if updateError.Some? then UpdateFailed(publicUrl.value, updateError.value)
    else Uploaded(publicUrl.value)
  }

  /** The message shown for a failed attempt. */
  function UploadErrorText(o: UploadOutcome): (r: string)
    ensures !o.NoFile? && !o.Uploaded? ==> r != []
  {
    match o
    case CompressFailed(m) => ErrorText(m, UploadFallback)
    case UploadFailed(m) => UploadFailedPrefix + m
    case NoPublicUrl => PublicUrlMissing
    case UpdateFailed(_, m) => ErrorText(m, UploadFallback)
    case _ => []
  }

  /** The calls an attempt makes, in order: the upload once compression worked, the database update once a URL came back. */
  function UploadOperations(o: UploadOutcome, userId: string, name: string): (ops: seq<Operation>)
    ensures o.NoFile? || o.CompressFailed? <==> ops == []
    ensures ops != [] ==> ops[0] == UploadFile(UploadPath(name))
    ensures |ops| == 2 <==> o.UpdateFailed? || o.Uploaded?
  {
    match o
    case NoFile => []
    case CompressFailed(_) => []
    case UploadFailed(_) => [UploadFile(UploadPath(name))]
    case NoPublicUrl => [UploadFile(UploadPath(name))]
    case UpdateFailed(url, _) => [UploadFile(UploadPath(name)), SetPicture(userId, Some(url))]
    case Uploaded(url) => [UploadFile(UploadPath(name)), SetPicture(userId, Some(url))]
  }

  /** The widget's state: the React state plus what it has told its parent and the calls it has made. */
  class PictureWidget {
    var uploading: bool
    var imageUrl: Option<string>
    var error: Option<string>
    /** Each value passed to `onUpdate`, in order. */
    var reported: seq<Option<string>>
    /** Each storage and database call, in order. */
    var operations: seq<Operation>
    /** Whether the parent passed an `onUpdate` callback. */
    const notify: bool

    /** Between handler runs nothing is uploading, and a shown picture carries a stamp. */
    predicate Valid()
      reads this
    {
      !uploading && (imageUrl.Some? ==> '?' in imageUrl.value)
    }

    constructor (notify: bool)
      ensures Valid() && this.notify == notify
      ensures imageUrl == None && error == None && reported == [] && operations == []
    {
      this.notify := notify;
      uploading := false;
      imageUrl := None;
      error := None;
      reported := [];
      operations := [];
    }

    /** The effect on `existingUrl`: a non-empty URL is shown with a fresh stamp, anything else clears the picture. */
    method SyncExisting(existingUrl: Option<string>, time: nat)
      requires Valid()
      modifies this
      ensures Valid()
      ensures imageUrl == if existingUrl.Some? && existingUrl.value != [] then Some(DisplayUrl(existingUrl.value, time)) else None
      ensures error == old(error) && reported == old(reported) && operations == old(operations)
    {
      if existingUrl.Some? && existingUrl.value != [] {
        imageUrl := Some(DisplayUrl(existingUrl.value, time));
        assert imageUrl.value[|WithoutQuery(existingUrl.value)|] == '?';
      } else {
        imageUrl := None;
      }
    }

    /**
     * `handleFileChange`: with no file nothing happens; otherwise the
     * compressed picture is uploaded as `public/profile-<userId>-<now>.jpg`,
     * its public URL stored for the user, shown with a stamp and reported;
     * the first failure is shown as the error instead.
     */
    method HandleFileChange(file: bool, userId: string, now: nat, time: nat,
                            compressError: Option<string>, uploadError: Option<string>,
                            publicUrl: Option<string>, updateError: Option<string>)
      requires Valid()
      modifies this
      ensures Valid()
      ensures var o := AttemptUpload(file, compressError, uploadError, publicUrl, updateError);
        operations == old(operations) + UploadOperations(o, userId, UploadName(userId, now)) &&
        (o.NoFile? ==> imageUrl == old(imageUrl) && error == old(error) && reported == old(reported)) &&
        (o.Uploaded? ==>
          imageUrl == Some(Stamped(o.publicUrl, time)) && error == None &&
          reported == old(reported) + if notify then [Some(o.publicUrl)] else []) &&
        (!o.NoFile? && !o.Uploaded? ==>
          imageUrl == old(imageUrl) && error == Some(UploadErrorText(o)) && reported == old(reported))
    {
      if !file {
        return;
      }
      uploading := true;
      error := None;
      var name := UploadName(userId, now);
      if compressError.Some? {
        error := Some(ErrorText(compressError.value, UploadFallback));
      } else {
        operations := operations + [UploadFile(UploadPath(name))];
        if uploadError.Some? {
          error := Some(UploadFailedPrefix + uploadError.value);
        } else if publicUrl.None? || publicUrl.value == [] {
          error := Some(PublicUrlMissing);
        } else {
          var url := publicUrl.value;
          operations := operations + [SetPicture(userId, Some(url))];
          if updateError.Some? {
            error := Some(ErrorText(updateError.value, UploadFallback));
          } else {
            imageUrl := Some(Stamped(url, time));
            assert imageUrl.value[|url|] == '?';
            if notify {
              reported := reported + [Some(url)];
            }
          }
        }
      }
      uploading := false;
    }

    /**
     * `handleRemove`: with no picture shown nothing happens; otherwise the
     * stored file is removed, the user's picture cleared, and the widget
     * cleared and the parent told. `removeError` and `updateError` are the
     * messages of calls that throw ("" for none).
     */
    method HandleRemove(userId: string, removeError: Option<string>, updateError: Option<string>)
      requires Valid()
      modifies this
      ensures Valid()
      ensures old(imageUrl).None? || old(imageUrl).value == [] ==>
        imageUrl == old(imageUrl) && error == old(error) && reported == old(reported) &&
        operations == old(operations)
      ensures old(imageUrl).Some? && old(imageUrl).value != [] ==>
        var path := RemovalPath(old(imageUrl).value);
        if removeError.Some? then
          operations == old(operations) + [RemoveFile(path)] && imageUrl == old(imageUrl) &&
          error == Some(ErrorText(removeError.value, RemoveFallback)) && reported == old(reported)
        else if updateError.Some? then
          operations == old(operations) + [RemoveFile(path), SetPicture(userId, None)] &&
          imageUrl == old(imageUrl) &&
          error == Some(ErrorText(updateError.value, RemoveFallback)) && reported == old(reported)
        else
          operations == old(operations) + [RemoveFile(path), SetPicture(userId, None)] &&
          imageUrl == None && error == None &&
          reported == old(reported) + if notify then [None] else []
    {
      if imageUrl.None? || imageUrl.value == [] {
        return;
      }
      uploading := true;
      error := None;
      var path := RemovalPath(imageUrl.value);
      operations := operations + [RemoveFile(path)];
      if removeError.Some? {
        error := Some(ErrorText(removeError.value, RemoveFallback));
      } else {
        operations := operations + [SetPicture(userId, None)];
        if updateError.Some? {
          error := Some(ErrorText(updateError.value, RemoveFallback));
        } else {
          imageUrl := None;
          if notify {
            reported := reported + [None];
          }
        }
      }
      uploading := false;
    }
  }
}
