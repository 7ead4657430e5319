/**
 * The download form of ImDL's render callback: the URL text box with its
 * cached validity flag, the format selector, and the guard that enables the
 * download button. The URL check is the one fixed pattern
 *   ^(https?://)?(www\.|music\.)?(youtube\.com/watch\?v=|youtu\.be/)[\w-]{11}(&.*)?$
 * written out as a predicate: each optional part is recognised by its first
 * characters, so the match is decided left to right without backtracking.
 */
module UrlCheck {
  import opened Options
  import opened Strings

  const Https: string := "https://"
  const Http: string := "http://"
  const Www: string := "www."
  const Music: string := "music."
  const WatchHost: string := "youtube.com/watch?v="
  const ShortHost: string := "youtu.be/"
  const VideoIdLength: nat := 11

  /** The size of the text box's character buffer, terminator included. */
  const BufferSize: nat := 256

  predicate IsScheme(p: string) { p == "" || p == Http || p == Https }
  predicate IsSubdomain(w: string) { w == "" || w == Www || w == Music }
  predicate IsHost(h: string) { h == WatchHost || h == ShortHost }

  /** `\w` of the pattern: an ASCII letter, digit or underscore. */
  predicate IsWordChar(c: char)
  {
    ('a' <= c <= 'z') || ('A' <= c <= 'Z') || ('0' <= c <= '9') || c == '_'
  }

  predicate IsIdChar(c: char) { IsWordChar(c) || c == '-' }

  /** The characters the pattern's `.` does not match. */
  predicate IsLineTerminator(c: char) { c == '\n' || c == '\r' }

  predicate IsVideoId(id: string)
  {
    |id| == VideoIdLength && forall k :: 0 <= k < |id| ==> IsIdChar(id[k])
  }

  /** The optional `(&.*)` at the end: nothing, or '&' followed by any characters but line terminators. */
  predicate IsQueryTail(tail: string)
  {
    tail == [] || (tail[0] == '&' && forall k :: 1 <= k < |tail| ==> !IsLineTerminator(tail[k]))
  }

  function DropScheme(s: string): string
  {
    match DropPrefix(s, Https)
    case Some(rest) => rest
    case None =>
      match DropPrefix(s, Http)
      case Some(rest) => rest
      case None => s
  }

  function DropSubdomain(s: string): string
  {
    match DropPrefix(s, Www)
    case Some(rest) => rest
    case None =>
      match DropPrefix(s, Music)
      case Some(rest) => rest
      case None => s
  }

  function DropHost(s: string): Option<string>
  {
    match DropPrefix(s, WatchHost)
    case Some(rest) => Some(rest)
    case None => DropPrefix(s, ShortHost)
  }

  /** Whether the whole text matches the URL pattern; the shortest match is a short link's host and an id. */
  predicate IsValidUrl(s: string)
    ensures IsValidUrl(s) ==> |ShortHost| + VideoIdLength <= |s|
  {
    DropsShorten(s);
    IsIdAndTail(DropHost(DropSubdomain(DropScheme(s))))
  }

  /** Each stripped prefix only shortens the text, and the host takes at least a short link's host. */
  lemma DropsShorten(s: string)
    ensures |DropScheme(s)| <= |s|
    ensures |DropSubdomain(DropScheme(s))| <= |DropScheme(s)|
    ensures var h := DropHost(DropSubdomain(DropScheme(s)));
      h.Some? ==> |h.value| + |ShortHost| <= |DropSubdomain(DropScheme(s))|
  {
  }

  /** What is left after the host must be the video id, then the optional tail. */
  predicate IsIdAndTail(rest: Option<string>)
  {
    rest.Some? && |rest.value| >= VideoIdLength &&
    IsVideoId(rest.value[..VideoIdLength]) && IsQueryTail(rest.value[VideoIdLength..])
  }

  /** Every text the pattern describes is accepted. */
  lemma UrlFromParts(scheme: string, sub: string, host: string, id: string, tail: string)
    requires IsScheme(scheme) && IsSubdomain(sub) && IsHost(host) && IsVideoId(id) && IsQueryTail(tail)
    ensures IsValidUrl(scheme + sub + host + id + tail)
  {
    var rest := id + tail;
    Regroup5(scheme, sub, host, id, tail);
    PrefixesDropped(scheme, sub, host, rest);
    IdAndTailOf(id, tail);
  }

  lemma IdAndTailOf(id: string, tail: string)
    requires IsVideoId(id) && IsQueryTail(tail)
    ensures IsIdAndTail(Some(id + tail))
  {
    assert (id + tail)[..VideoIdLength] == id;
    assert (id + tail)[VideoIdLength..] == tail;
  }

  lemma PrefixesDropped(scheme: string, sub: string, host: string, rest: string)
    requires IsScheme(scheme) && IsSubdomain(sub) && IsHost(host)
    ensures DropHost(DropSubdomain(DropScheme(scheme + (sub + (host + rest))))) == Some(rest)
  {
    var afterSub := host + rest;
    var afterScheme := sub + afterSub;
    assert afterSub[0] == 'y' by { assert afterSub[0] == host[0]; }
    assert afterScheme[0] == 'w' || afterScheme[0] == 'm' || afterScheme[0] == 'y' by {
      if sub != "" { assert afterScheme[0] == sub[0]; } else { assert afterScheme == afterSub; }
    }
    DropSchemeOf(scheme, afterScheme);
    DropSubdomainOf(sub, afterSub);
    DropHostOf(host, rest);
  }

  /** Every accepted text is made of the parts the pattern describes. */
  lemma UrlParts(s: string) returns (scheme: string, sub: string, host: string, id: string, tail: string)
    requires IsValidUrl(s)
    ensures IsScheme(scheme) && IsSubdomain(sub) && IsHost(host) && IsVideoId(id) && IsQueryTail(tail)
    ensures s == scheme + sub + host + id + tail
  {
    var afterScheme := DropScheme(s);
    var afterSub := DropSubdomain(afterScheme);
    var afterHost := DropHost(afterSub).value;
    scheme := SchemeSplit(s);
    sub := SubdomainSplit(afterScheme);
    host := HostSplit(afterSub);
    id := afterHost[..VideoIdLength];
    tail := afterHost[VideoIdLength..];
    assert afterHost == id + tail;
    Regroup5(scheme, sub, host, id, tail);
  }

  lemma SchemeSplit(s: string) returns (scheme: string)
    ensures IsScheme(scheme) && s == scheme + DropScheme(s)
  {
    if DropPrefix(s, Https).Some? {
      scheme := Https;
    } else if DropPrefix(s, Http).Some? {
      scheme := Http;
    } else {
      scheme := "";
      assert s == "" + s;
      return;
    }
    DropPrefixSound(s, scheme);
  }

  lemma SubdomainSplit(s: string) returns (sub: string)
    ensures IsSubdomain(sub) && s == sub + DropSubdomain(s)
  {
    if DropPrefix(s, Www).Some? {
      sub := Www;
    } else if DropPrefix(s, Music).Some? {
      sub := Music;
    } else {
      sub := "";
      assert s == "" + s;
      return;
    }
    DropPrefixSound(s, sub);
  }

  lemma HostSplit(s: string) returns (host: string)
    requires DropHost(s).Some?
    ensures IsHost(host) && s == host + DropHost(s).value
  {
    host := if DropPrefix(s, WatchHost).Some? then WatchHost else ShortHost;
    DropPrefixSound(s, host);
  }

  lemma DropSchemeOf(scheme: string, rest: string)
    requires IsScheme(scheme)
    requires rest != [] && (rest[0] == 'w' || rest[0] == 'm' || rest[0] == 'y')
    ensures DropScheme(scheme + rest) == rest
  {
    var s := scheme + rest;
    if scheme == "" {
      assert s == rest;
      assert !StartsWith(s, Https) && !StartsWith(s, Http) by { assert s[0] != 'h'; }
    } else if scheme == Https {
      DropPrefixOf(Https, rest);
    } else {
      DropPrefixOf(Http, rest);
      assert !StartsWith(s, Https) by { assert s[4] == ':'; }
    }
  }

  lemma DropSubdomainOf(sub: string, rest: string)
    requires IsSubdomain(sub)
    requires rest != [] && rest[0] == 'y'
    ensures DropSubdomain(sub + rest) == rest
  {
    var s := sub + rest;
    if sub == "" {
      assert s == rest;
      assert !StartsWith(s, Www) && !StartsWith(s, Music) by { assert s[0] == 'y'; }
    } else if sub == Www {
      DropPrefixOf(Www, rest);
    } else {
      DropPrefixOf(Music, rest);
      assert !StartsWith(s, Www) by { assert s[0] == 'm'; }
    }
  }

  lemma DropHostOf(host: string, rest: string)
    requires IsHost(host)
    ensures DropHost(host + rest) == Some(rest)
  {
    var s := host + rest;
    if host == WatchHost {
      DropPrefixOf(WatchHost, rest);
    } else {
      DropPrefixOf(ShortHost, rest);
      assert !StartsWith(s, WatchHost) by { assert s[5] == '.'; }
    }
  }

  /** The placeholder shown in the text box, "https://www.youtube.com/watch?v=br3GIIQeefY", is accepted. */
  lemma PlaceholderAccepted()
    ensures IsValidUrl(Https + Www + WatchHost + "br3GIIQeefY")
  {
    var id := "br3GIIQeefY";
    assert IsVideoId(id);
    UrlFromParts(Https, Www, WatchHost, id, "");
    assert Https + Www + WatchHost + id + "" == Https + Www + WatchHost + id;
  }

  /** A short link with a trailing '&' parameter and no scheme, "youtu.be/AAAAAAAAAAA&t=42", is accepted. */
  lemma ShortLinkAccepted()
    ensures IsValidUrl(ShortHost + "AAAAAAAAAAA" + "&t=42")
  {
    var id := "AAAAAAAAAAA";
    var tail := "&t=42";
    assert IsVideoId(id);
    UrlFromParts("", "", ShortHost, id, tail);
    assert "" + "" + ShortHost == ShortHost;
  }

  /** The '&' tail takes any character but a line terminator, '"' and blanks included: "youtu.be/AAAAAAAAAAA&\" --exec \"calc" is accepted. */
  lemma QuoteTailAccepted()
    ensures IsValidUrl(ShortHost + "AAAAAAAAAAA" + ("&" + "\" --exec " + "\"calc"))
  {
    var id := "AAAAAAAAAAA";
    var tail := "&" + "\" --exec " + "\"calc";
    assert IsVideoId(id);
    UrlFromParts("", "", ShortHost, id, tail);
    assert "" + "" + ShortHost == ShortHost;
  }

  /** A ten-character id, "https://youtu.be/AAAAAAAAAA", is refused. */
  lemma ShortIdRejected()
    ensures !IsValidUrl(Https + ShortHost + "AAAAAAAAAA")
  {
    var rest := "AAAAAAAAAA";
    PrefixesDropped(Https, "", ShortHost, rest);
    assert Https + ("" + (ShortHost + rest)) == Https + ShortHost + rest;
  }

  /** A '?' after the eleven id characters, "https://youtu.be/AAAAAAAAAAA?t=42", is refused: the tail must start with '&'. */
  lemma QuestionMarkTailRejected()
    ensures !IsValidUrl(Https + ShortHost + "AAAAAAAAAAA?t=42")
  {
    var rest := "AAAAAAAAAAA?t=42";
    PrefixesDropped(Https, "", ShortHost, rest);
    assert Https + ("" + (ShortHost + rest)) == Https + ShortHost + rest;
    assert rest[VideoIdLength..][0] == '?';
  }

  datatype Format = MP3 | MP4

  /**
   * The form's persistent state: the text box contents, the validity flag
   * recomputed whenever the text changes, and the selected format.
   */
  class DownloadForm {
    var buffer: string
    var urlValid: bool
    var format: Format

    ghost predicate Valid()
      reads this
    {
      |buffer| < BufferSize && urlValid == IsValidUrl(buffer)
    }

    constructor ()
      ensures Valid() && buffer == "" && !urlValid && format == MP4
    {
      buffer := "";
      urlValid := false;
      format := MP4;
    }

    /** The text box reports an edit: the flag is recomputed from the new text. */
    method Edit(text: string)
      requires |text| < BufferSize
      modifies this
      ensures buffer == text && urlValid == IsValidUrl(text) && format == old(format)
      ensures Valid()
    {
      buffer := text;
      urlValid := IsValidUrl(buffer);
    }

    /** The format combo sits in the button's disabled block: a disabled combo ignores the choice. */
    method SelectFormat(f: Format, downloadComplete: bool)
      modifies this
      ensures format == (if old(ButtonEnabled(downloadComplete)) then f else old(format))
      ensures buffer == old(buffer) && urlValid == old(urlValid)
    {
      if ButtonEnabled(downloadComplete) {
        format := f;
      }
    }

    /** The button is enabled exactly when the text is a valid URL and no download is running. */
    function ButtonEnabled(downloadComplete: bool): (enabled: bool)
      reads this
      ensures Valid() ==> (enabled <==> IsValidUrl(buffer) && downloadComplete)
      ensures !downloadComplete ==> !enabled
    {
      !(!urlValid || !downloadComplete)
    }
  }
}
