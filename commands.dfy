/**
 * The command lines the download worker hands to the process runner, and
 * the rule that turns the name yt-dlp resolves into the name reported at
 * the end. Each command has a parser beside it that recovers what the
 * command was built from, so the lemmas can say that building a command is
 * injective: different URLs or modes never give the same command line. The
 * parsers strip only the outer pair of quotes; they say nothing about how a
 * receiver that splits its arguments at quotes reads a URL that holds one.
 */
module Commands {
  import opened Options
  import opened Strings

  const Executable: string := "yt-dlp.exe"
  const OutputTemplate: string := "%(title)s.%(ext)s"
  const AudioFlags: string := "--extract-audio --audio-format mp3 "
  const VideoFlags: string := "--format bestvideo+bestaudio/best "
  const MergeFlags: string := "--merge-output-format mp4 "

  /** The output template option, quoted, with the blank that follows it. */
  const OutputArgs: string := "--output " + Quoted(OutputTemplate) + " "

  /** Everything of the name query in front of the quoted URL. */
  const NameQueryPrefix: string := Executable + " --print filename " + OutputArgs

  /** The query that asks yt-dlp for the file name it would write. */
  function NameQueryCommand(url: string): string
  {
    Executable + " --print filename " + OutputArgs + Quoted(url)
  }

  function ModeFlags(audioOnly: bool): string
  {
    if audioOnly then AudioFlags else VideoFlags
  }

  /** The command that downloads the media, audio only or best video plus best audio. */
  function TransferCommand(audioOnly: bool, url: string): string
  {
    Executable + " " + ModeFlags(audioOnly) + MergeFlags + OutputArgs + Quoted(url)
  }

  /** Recovers the URL from a name query, or None for any other string. */
  function ParseNameQuery(cmd: string): Option<string>
  {
    match DropPrefix(cmd, NameQueryPrefix)
    case None => None
    case Some(rest) => Unquote(rest)
  }

  /** Which mode flags a string starts with, if any. */
  function ModeOf(s: string): Option<bool>
  {
    if StartsWith(s, AudioFlags) then Some(true)
    else if StartsWith(s, VideoFlags) then Some(false)
    else None
  }

  /** Recovers the mode and the URL from a transfer command, or None for any other string. */
  function ParseTransfer(cmd: string): Option<(bool, string)>
  {
    match DropPrefix(cmd, Executable + " ")
    case None => None
    case Some(afterExe) =>
      match ModeOf(afterExe)
      case None => None
      case Some(audioOnly) =>
        match DropPrefix(afterExe, ModeFlags(audioOnly) + (MergeFlags + OutputArgs))
        case None => None
        case Some(rest) =>
          match Unquote(rest)
          case None => None
          case Some(url) => Some((audioOnly, url))
  }

  /** The two flag sets differ at their third character, so neither run of flags is read as the other. */
  lemma ModeOfFlags(audioOnly: bool, rest: string)
    ensures ModeOf(ModeFlags(audioOnly) + rest) == Some(audioOnly)
    ensures StartsWith(ModeFlags(audioOnly) + rest, AudioFlags) <==> audioOnly
    ensures StartsWith(ModeFlags(audioOnly) + rest, VideoFlags) <==> !audioOnly
  {
    var s := ModeFlags(audioOnly) + rest;
    assert s[..|ModeFlags(audioOnly)|] == ModeFlags(audioOnly);
    assert s[2] == ModeFlags(audioOnly)[2];
    assert AudioFlags[2] == 'e' && VideoFlags[2] == 'f';
  }

  /** The name query gives back its URL, and a string that parses is the query for that URL. */
  lemma NameQueryRoundTrip(url: string, cmd: string)
    ensures ParseNameQuery(NameQueryCommand(url)) == Some(url)
    ensures ParseNameQuery(cmd) == Some(url) ==> cmd == NameQueryCommand(url)
  {
    assert NameQueryCommand(url) == NameQueryPrefix + Quoted(url);
    DropPrefixOf(NameQueryPrefix, Quoted(url));
    UnquoteOf(url);
    if ParseNameQuery(cmd) == Some(url) {
      DropPrefixSound(cmd, NameQueryPrefix);
      UnquoteSound(DropPrefix(cmd, NameQueryPrefix).value);
    }
  }

  /** The transfer command gives back its mode and URL, and a string that parses is that command. */
  lemma TransferRoundTrip(audioOnly: bool, url: string, cmd: string)
    ensures ParseTransfer(TransferCommand(audioOnly, url)) == Some((audioOnly, url))
    ensures ParseTransfer(cmd) == Some((audioOnly, url)) ==> cmd == TransferCommand(audioOnly, url)
  {
    TransferParses(audioOnly, url);
    if ParseTransfer(cmd) == Some((audioOnly, url)) {
      TransferParsedIs(audioOnly, url, cmd);
    }
  }

  lemma TransferSplit(audioOnly: bool, url: string)
    ensures TransferCommand(audioOnly, url) == (Executable + " ") + (ModeFlags(audioOnly) + (MergeFlags + OutputArgs) + Quoted(url))
  {
    var head := Executable + " ";
    var flags := ModeFlags(audioOnly);
    var tail := MergeFlags + OutputArgs;
    var quoted := Quoted(url);
    assert TransferCommand(audioOnly, url) == head + flags + MergeFlags + OutputArgs + quoted;
    Regroup(head + flags, MergeFlags, OutputArgs, quoted);
    Regroup(head, flags, tail, quoted);
  }

  lemma TransferParses(audioOnly: bool, url: string)
    ensures ParseTransfer(TransferCommand(audioOnly, url)) == Some((audioOnly, url))
  {
    var head := Executable + " ";
    var flags := ModeFlags(audioOnly);
    var tail := MergeFlags + OutputArgs;
    var afterExe := flags + tail + Quoted(url);
    TransferSplit(audioOnly, url);
    DropPrefixOf(head, afterExe);
    assert afterExe == flags + (tail + Quoted(url));
    ModeOfFlags(audioOnly, tail + Quoted(url));
    DropPrefixOf(flags + tail, Quoted(url));
    UnquoteOf(url);
  }

  lemma TransferParsedIs(audioOnly: bool, url: string, cmd: string)
    requires ParseTransfer(cmd) == Some((audioOnly, url))
    ensures cmd == TransferCommand(audioOnly, url)
  {
    var head := Executable + " ";
    var flagsAndTail := ModeFlags(audioOnly) + (MergeFlags + OutputArgs);
    DropPrefixSound(cmd, head);
    var afterExe := DropPrefix(cmd, head).value;
    DropPrefixSound(afterExe, flagsAndTail);
    UnquoteSound(DropPrefix(afterExe, flagsAndTail).value);
    TransferSplit(audioOnly, url);
  }

  /**
   * The mode flags stand right after the executable: the audio extraction
   * flags exactly when audioOnly, the format selection exactly otherwise;
   * the merge flag is always there, and the command ends with the quoted URL.
   */
  lemma TransferCommandShape(audioOnly: bool, url: string)
    ensures StartsWith(TransferCommand(audioOnly, url), Executable + " ")
    ensures StartsWith(TransferCommand(audioOnly, url)[|Executable| + 1..], AudioFlags) <==> audioOnly
    ensures StartsWith(TransferCommand(audioOnly, url)[|Executable| + 1..], VideoFlags) <==> !audioOnly
    ensures Contains(TransferCommand(audioOnly, url), MergeFlags)
    ensures EndsWith(TransferCommand(audioOnly, url), Quoted(url))
  {
    TransferModeFlags(audioOnly, url);
    TransferMerges(audioOnly, url);
    TransferEndsWithUrl(audioOnly, url);
  }

  lemma TransferModeFlags(audioOnly: bool, url: string)
    ensures StartsWith(TransferCommand(audioOnly, url), Executable + " ")
    ensures StartsWith(TransferCommand(audioOnly, url)[|Executable| + 1..], AudioFlags) <==> audioOnly
    ensures StartsWith(TransferCommand(audioOnly, url)[|Executable| + 1..], VideoFlags) <==> !audioOnly
  {
    var head := Executable + " ";
    var rest := MergeFlags + OutputArgs + Quoted(url);
    TransferSplit(audioOnly, url);
    assert ModeFlags(audioOnly) + (MergeFlags + OutputArgs) + Quoted(url) == ModeFlags(audioOnly) + rest;
    DropPrefixOf(head, ModeFlags(audioOnly) + rest);
    ModeOfFlags(audioOnly, rest);
  }

  lemma TransferMerges(audioOnly: bool, url: string)
    ensures Contains(TransferCommand(audioOnly, url), MergeFlags)
  {
    var front := Executable + " " + ModeFlags(audioOnly);
    var after := OutputArgs + Quoted(url);
    Regroup(front, MergeFlags, OutputArgs, Quoted(url));
    OccursBetween(front, MergeFlags, after);
  }


  lemma TransferEndsWithUrl(audioOnly: bool, url: string)
    ensures EndsWith(TransferCommand(audioOnly, url), Quoted(url))
  {
    EndsWithOf(Executable + " " + ModeFlags(audioOnly) + MergeFlags + OutputArgs, Quoted(url));
  }

  /** The name query is fixed up to the URL and ends with the quoted URL. */
  lemma NameQueryShape(url: string)
    ensures StartsWith(NameQueryCommand(url), NameQueryPrefix)
    ensures EndsWith(NameQueryCommand(url), Quoted(url))
  {
    DropPrefixOf(NameQueryPrefix, Quoted(url));
    EndsWithOf(NameQueryPrefix, Quoted(url));
  }

  /** Index of the last '.', if there is one. */
  function LastDot(s: string): (r: Option<nat>)
    ensures r.Some? ==> r.value < |s| && s[r.value] == '.' && forall j :: r.value < j < |s| ==> s[j] != '.'
    ensures r.None? ==> forall j :: 0 <= j < |s| ==> s[j] != '.'
  {
    if s == [] then None
    else if s[|s| - 1] == '.' then Some(|s| - 1)
    else LastDot(s[..|s| - 1])
  }

  /** The name without its extension. */
  function Stem(s: string): string
  {
    match LastDot(s)
    case Some(i) => s[..i]
    case None => s
  }

  /** The extension, from the last '.' on; empty when there is no '.'. */
  function Extension(s: string): string
  {
    match LastDot(s)
    case Some(i) => s[i..]
    case None => ""
  }

  /** A well-formed extension: a dot followed by dot-free characters. */
  predicate IsExtension(ext: string)
  {
    |ext| >= 1 && ext[0] == '.' && forall j :: 1 <= j < |ext| ==> ext[j] != '.'
  }

  function ReplaceExtension(s: string, ext: string): string
  {
    Stem(s) + ext
  }

  /** The name reported after a download: the resolved name with the container's extension. */
  function FinalName(resolved: string, audioOnly: bool): string
  {
    ReplaceExtension(resolved, if audioOnly then ".mp3" else ".mp4")
  }

  /** A name is its stem followed by its extension. */
  lemma StemAndExtension(s: string)
    ensures Stem(s) + Extension(s) == s
  {
    match LastDot(s)
    case Some(i) => assert s[..i] + s[i..] == s;
    case None =>
  }

  /** After the replacement the extension is the new one and the stem is the old one. */
  lemma ReplaceExtensionParts(s: string, ext: string)
    requires IsExtension(ext)
    ensures Extension(ReplaceExtension(s, ext)) == ext
    ensures Stem(ReplaceExtension(s, ext)) == Stem(s)
  {
    var r := ReplaceExtension(s, ext);
    var d := |Stem(s)|;
    assert r[d] == '.';
    LastDotAt(r, d);
    assert r[..d] == Stem(s);
    assert r[d..] == ext;
  }

  lemma {:induction false} LastDotAt(s: string, d: nat)
    requires d < |s| && s[d] == '.' && forall j :: d < j < |s| ==> s[j] != '.'
    ensures LastDot(s) == Some(d)
  {
    if d < |s| - 1 {
      LastDotAt(s[..|s| - 1], d);
    }
  }

  /** Replacing the extension twice is replacing it once. */
  lemma ReplaceExtensionIdempotent(s: string, ext: string)
    requires IsExtension(ext)
    ensures ReplaceExtension(ReplaceExtension(s, ext), ext) == ReplaceExtension(s, ext)
  {
    ReplaceExtensionParts(s, ext);
  }

  /** The final name ends in the container extension of the mode and keeps the resolved stem. */
  lemma FinalNameShape(resolved: string, audioOnly: bool)
    ensures Extension(FinalName(resolved, audioOnly)) == (if audioOnly then ".mp3" else ".mp4")
    ensures Stem(FinalName(resolved, audioOnly)) == Stem(resolved)
  {
    ReplaceExtensionParts(resolved, if audioOnly then ".mp3" else ".mp4");
  }

  /** "clip.webm" is reported as "clip.mp3" for an audio download and "clip.mp4" otherwise. */
  lemma FinalNameExample()
    ensures FinalName("clip.webm", true) == "clip.mp3"
    ensures FinalName("clip.webm", false) == "clip.mp4"
  {
    LastDotAt("clip.webm", 4);
    assert "clip.webm"[..4] == "clip";
  }
}
