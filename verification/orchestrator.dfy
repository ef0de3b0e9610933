/**
 The pure decisions of the FFmpeg orchestrator: what the capability probe
 learns from the `-version` and `-encoders` listings, which encoder is
 chosen, how a frame-rate string is read, which concatenation route a job
 takes, and the contents of the concat-demuxer list file. The subprocesses
 themselves are inputs: each run is given by its return code and standard
 output, or as having raised.
 */
module Orchestrator {
  import opened Common
  import opened Text

  /** What `_detect_capabilities` fills in. */
  datatype Capabilities = Capabilities(
    hasNvenc: bool,
    hasAmf: bool,
    hasVideotoolbox: bool,
    version: string,
    availableEncoders: seq<string>)

  /** The dataclass defaults: nothing detected. */
  const NoCapabilities := Capabilities(false, false, false, "", [])

  /** The outcome of one `subprocess.run`: it finished with a return code and
      its standard output, or it raised (timeout, missing executable). */
  datatype RunResult = Finished(returnCode: int, stdout: string) | Raised

  // ---------------------------------------------------------------------
  // The -version banner

  const VersionPrefix := "ffmpeg version "

  /** The version word of a `-version` banner; `None` where the code's
      `split()[0]` raises because the first line holds nothing else. */
  function VersionOf(stdout: string): (r: Option<string>)
    ensures r.Some? ==> |r.value| > 0 && NoSpace(r.value)
  {
    var first := SplitOn(stdout, '\n')[0];
    var words := Words(Replace(first, VersionPrefix, ""));
    if |words| == 0 then None else Some(words[0])
  }

  /** A banner `ffmpeg version <v> <rest>` on the first line yields `v`. */
  lemma VersionOfBanner(v: string, rest: string, more: string)
    requires |v| > 0 && NoSpace(v) && '\n' !in rest
    requires !Contains(v + " " + rest, VersionPrefix)
    ensures VersionOf(VersionPrefix + v + " " + rest + "\n" + more) == Some(v)
  {
    var line := VersionPrefix + v + " " + rest;
    assert '\n' !in v by {
      assert forall i :: 0 <= i < |v| ==> v[i] != '\n' by {
        assert forall i :: 0 <= i < |v| ==> !IsSpace(v[i]);
      }
    }
    assert '\n' !in line by {
      assert line == VersionPrefix + v + (" " + rest);
    }
    assert VersionPrefix + v + " " + rest + "\n" + more == line + ['\n'] + more;
    SplitOnHead(line, more, '\n');
    var tail := v + " " + rest;
    assert line == VersionPrefix + tail;
    assert StartsWith(line, VersionPrefix);
    assert line[|VersionPrefix|..] == tail;
    ReplaceAbsent(tail, VersionPrefix, "");
    assert Replace(line, VersionPrefix, "") == tail;
    WordsAfterToken(v, rest);
  }

  // ---------------------------------------------------------------------
  // The -encoders listing

  /** The flag columns an encoder line must start with to be listed. */
  const ListedFlags: seq<string> := ["V.....", "V....D"]

  predicate MentionsH264OrHevc(line: string) {
    Contains(Lower(line), "h264") || Contains(Lower(line), "hevc")
  }

  /** The encoder name one listing line contributes, if any. */
  function EncoderOfLine(line: string): (r: Option<string>)
    ensures r.Some? ==> MentionsH264OrHevc(line)
    ensures r.Some? ==> |r.value| > 0 && NoSpace(r.value)
    ensures r.Some? ==> |Words(line)| >= 2 && Words(line)[0] in ListedFlags && r.value == Words(line)[1]
  {
    if MentionsH264OrHevc(line) then
      var parts := Words(line);
      if |parts| >= 2 && parts[0] in ListedFlags then Some(parts[1]) else None
    else None
  }

  /** What one line adds to the encoder list. */
  function Contribution(line: string): seq<string> {
    match EncoderOfLine(line)
    case Some(e) => [e]
    case None => []
  }

  lemma EncoderLineWords(flags: string, name: string, description: string)
    requires flags in ListedFlags
    requires |name| > 0 && NoSpace(name)
    ensures Words(flags + " " + name + " " + description) == [flags, name] + Words(description)
  {
    assert NoSpace(flags);
    assert flags + " " + name + " " + description == flags + " " + (name + " " + description);
    WordsAfterToken(flags, name + " " + description);
    WordsAfterToken(name, description);
  }

  lemma MentionedInside(before: string, name: string, after: string)
    requires Contains(Lower(name), "h264") || Contains(Lower(name), "hevc")
    ensures MentionsH264OrHevc(before + name + after)
  {
    LowerAppend(before + name, after);
    LowerAppend(before, name);
    assert Lower(before + name + after) == Lower(before) + Lower(name) + Lower(after);
    if Contains(Lower(name), "h264") {
      ContainsInfix(Lower(before), Lower(name), Lower(after), "h264");
    } else {
      ContainsInfix(Lower(before), Lower(name), Lower(after), "hevc");
    }
  }

  /** A well-formed encoder line names its encoder. */
  lemma EncoderLineRoundTrip(flags: string, name: string, description: string)
    requires flags in ListedFlags
    requires |name| > 0 && NoSpace(name)
    requires Contains(Lower(name), "h264") || Contains(Lower(name), "hevc")
    ensures EncoderOfLine(flags + " " + name + " " + description) == Some(name)
  {
    EncoderLineWords(flags, name, description);
    MentionedInLine(flags, name, description);
    EncoderOfListedLine(flags + " " + name + " " + description, [flags, name] + Words(description));
  }

  lemma MentionedInLine(flags: string, name: string, description: string)
    requires Contains(Lower(name), "h264") || Contains(Lower(name), "hevc")
    ensures MentionsH264OrHevc(flags + " " + name + " " + description)
  {
    assert flags + " " + name + " " + description == (flags + " ") + name + (" " + description);
    MentionedInside(flags + " ", name, " " + description);
  }

  lemma EncoderOfListedLine(line: string, parts: seq<string>)
    requires parts == Words(line) && |parts| >= 2 && parts[0] in ListedFlags
    requires MentionsH264OrHevc(line)
    ensures EncoderOfLine(line) == Some(parts[1])
  {
  }

  /** The names the listing lines contribute, in line order. */
  function ParseEncoders(lines: seq<string>): (names: seq<string>)
    ensures |names| <= |lines|
    ensures forall k :: 0 <= k < |names| ==> |names[k]| > 0 && NoSpace(names[k])
  {
    if |lines| == 0 then [] else Contribution(lines[0]) + ParseEncoders(lines[1..])
  }

  /** Parsing a listing is parsing its parts one after the other. */
  lemma {:induction false} ParseEncodersAppend(a: seq<string>, b: seq<string>)
    ensures ParseEncoders(a + b) == ParseEncoders(a) + ParseEncoders(b)
    decreases |a|
  {
    if |a| == 0 {
      assert a + b == b;
    } else {
      assert (a + b)[1..] == a[1..] + b;
      ParseEncodersAppend(a[1..], b);
    }
  }

  /** `e` is the encoder some line of `lines` names. */
  predicate NamedByLine(lines: seq<string>, e: string) {
    exists j :: 0 <= j < |lines| && EncoderOfLine(lines[j]) == Some(e)
  }

  /** Every listed name comes from some line. */
  lemma {:induction false} ParseEncodersSound(lines: seq<string>)
    ensures forall k :: 0 <= k < |ParseEncoders(lines)| ==> NamedByLine(lines, ParseEncoders(lines)[k])
  {
    if |lines| > 0 {
      ParseEncodersSound(lines[1..]);
      var head := Contribution(lines[0]);
      var tail := ParseEncoders(lines[1..]);
      var names := ParseEncoders(lines);
      assert names == head + tail;
      forall k | 0 <= k < |names|
        ensures NamedByLine(lines, names[k])
      {
        if k < |head| {
          assert EncoderOfLine(lines[0]) == Some(names[k]);
        } else {
          assert names[k] == tail[k - |head|];
          assert NamedByLine(lines[1..], tail[k - |head|]);
          var j :| 0 <= j < |lines[1..]| && EncoderOfLine(lines[1..][j]) == Some(tail[k - |head|]);
          assert EncoderOfLine(lines[j + 1]) == Some(names[k]);
        }
      }
    }
  }

  /** Every line that names an encoder contributes it, in its place. */
  lemma ParseEncodersComplete(lines: seq<string>, j: nat)
    requires j < |lines| && EncoderOfLine(lines[j]).Some?
    ensures ParseEncoders(lines) ==
      ParseEncoders(lines[..j]) + [EncoderOfLine(lines[j]).value] + ParseEncoders(lines[j + 1..])
  {
    var rest := lines[j..];
    assert lines == lines[..j] + rest;
    ParseEncodersAppend(lines[..j], rest);
    assert rest[0] == lines[j] && rest[1..] == lines[j + 1..];
    assert ParseEncoders(rest) == Contribution(lines[j]) + ParseEncoders(lines[j + 1..]);
  }

  /** The flags and encoder list read from a successful `-encoders` run. */
  function ListingCapabilities(listing: string, version: string): (caps: Capabilities)
    ensures caps.hasNvenc <==> Contains(listing, "h264_nvenc") || Contains(listing, "nvenc_h264")
    ensures caps.hasAmf <==> Contains(listing, "h264_amf")
    ensures caps.hasVideotoolbox <==> Contains(listing, "h264_videotoolbox")
    ensures caps.version == version
    ensures forall k :: 0 <= k < |caps.availableEncoders| ==>
      NamedByLine(SplitOn(listing, '\n'), caps.availableEncoders[k])
  {
    ParseEncodersSound(SplitOn(listing, '\n'));
    Capabilities(
      Contains(listing, "h264_nvenc") || Contains(listing, "nvenc_h264"),
      Contains(listing, "h264_amf"),
      Contains(listing, "h264_videotoolbox"),
      version,
      ParseEncoders(SplitOn(listing, '\n')))
  }

  /** The probe reaches the encoder listing and that run succeeds: the
      `-version` run did not raise, did not leave an empty banner to index,
      and the `-encoders` run returned 0. */
  predicate ListingRead(versionRun: RunResult, encodersRun: RunResult) {
    versionRun.Finished?
    && !(versionRun.returnCode == 0 && VersionOf(versionRun.stdout).None?)
    && encodersRun.Finished? && encodersRun.returnCode == 0
  }

  /** `_detect_capabilities`: every failure is swallowed, keeping whatever
      was filled in before it. */
  function DetectCapabilities(versionRun: RunResult, encodersRun: RunResult): (caps: Capabilities)
    ensures ListingRead(versionRun, encodersRun) ==>
      caps == ListingCapabilities(encodersRun.stdout, caps.version)
    ensures !ListingRead(versionRun, encodersRun) ==>
      caps == NoCapabilities.(version := caps.version)
    ensures caps.version != "" ==>
      versionRun.Finished? && versionRun.returnCode == 0 && VersionOf(versionRun.stdout) == Some(caps.version)
    ensures versionRun.Finished? && versionRun.returnCode == 0 && VersionOf(versionRun.stdout).Some? ==>
      caps.version == VersionOf(versionRun.stdout).value
  {
    match versionRun
    case Raised => NoCapabilities
    case Finished(code, banner) =>
      if code == 0 && VersionOf(banner).None? then NoCapabilities
      else
        var version := if code == 0 then VersionOf(banner).value else "";
        match encodersRun
        case Raised => NoCapabilities.(version := version)
        case Finished(listingCode, listing) =>
          if listingCode != 0 then NoCapabilities.(version := version)
          else ListingCapabilities(listing, version)
  }

  /** A probe that never reads the listing detects no hardware encoder. */
  lemma UnreadListingDetectsNothing(versionRun: RunResult, encodersRun: RunResult)
    requires !ListingRead(versionRun, encodersRun)
    ensures var caps := DetectCapabilities(versionRun, encodersRun);
      !caps.hasNvenc && !caps.hasAmf && !caps.hasVideotoolbox && caps.availableEncoders == []
  {
  }

  // ---------------------------------------------------------------------
  // select_encoder

  /** `name` is one of the three hardware encoders and its flag is set. */
  predicate Accelerated(caps: Capabilities, name: string) {
    (name == "h264_nvenc" && caps.hasNvenc)
    || (name == "h264_amf" && caps.hasAmf)
    || (name == "h264_videotoolbox" && caps.hasVideotoolbox)
  }

  /** `preferred[i]` is the earliest preferred encoder whose hardware is
      available. */
  predicate FirstAcceleratedAt(caps: Capabilities, preferred: seq<string>, i: int) {
    0 <= i < |preferred| && Accelerated(caps, preferred[i])
    && forall j :: 0 <= j < i ==> !Accelerated(caps, preferred[j])
  }

  predicate NoneAccelerated(caps: Capabilities, preferred: seq<string>) {
    forall i :: 0 <= i < |preferred| ==> !Accelerated(caps, preferred[i])
  }

  lemma FirstAcceleratedShift(caps: Capabilities, preferred: seq<string>)
    requires |preferred| > 0 && !Accelerated(caps, preferred[0])
    ensures forall i :: FirstAcceleratedAt(caps, preferred[1..], i) ==> FirstAcceleratedAt(caps, preferred, i + 1)
    ensures NoneAccelerated(caps, preferred[1..]) ==> NoneAccelerated(caps, preferred)
  {
    forall i | FirstAcceleratedAt(caps, preferred[1..], i)
      ensures FirstAcceleratedAt(caps, preferred, i + 1)
    {
      forall j | 1 <= j < i + 1
        ensures !Accelerated(caps, preferred[j])
      {
        assert preferred[j] == preferred[1..][j - 1];
      }
    }
    if NoneAccelerated(caps, preferred[1..]) {
      forall i | 1 <= i < |preferred|
        ensures !Accelerated(caps, preferred[i])
      {
        assert preferred[i] == preferred[1..][i - 1];
      }
    }
  }

  /** The first preferred encoder whose hardware is available, else the
      fallback. */
  function SelectEncoder(caps: Capabilities, preferred: seq<string>, fallback: string): (r: string)
    ensures NoneAccelerated(caps, preferred) ==> r == fallback
    ensures !NoneAccelerated(caps, preferred) ==>
      exists i :: FirstAcceleratedAt(caps, preferred, i) && r == preferred[i]
    decreases |preferred|
  {
    if |preferred| == 0 then fallback
    else if Accelerated(caps, preferred[0]) then
      assert FirstAcceleratedAt(caps, preferred, 0);
      preferred[0]
    else
      FirstAcceleratedShift(caps, preferred);
      assert NoneAccelerated(caps, preferred) == NoneAccelerated(caps, preferred[1..]);
      SelectEncoder(caps, preferred[1..], fallback)
  }

  /** A software name in the preference list is never chosen over the
      fallback: whatever is not the fallback is an available hardware
      encoder. */
  lemma SelectEncoderSoftwareFallsBack(caps: Capabilities, preferred: seq<string>, fallback: string)
    ensures var r := SelectEncoder(caps, preferred, fallback);
      r == fallback || (r in preferred && Accelerated(caps, r))
  {
  }

  /** Without a readable listing the fallback is always chosen. */
  lemma UnreadListingFallsBack(versionRun: RunResult, encodersRun: RunResult,
                               preferred: seq<string>, fallback: string)
    requires !ListingRead(versionRun, encodersRun)
    ensures SelectEncoder(DetectCapabilities(versionRun, encodersRun), preferred, fallback) == fallback
  {
    UnreadListingDetectsNothing(versionRun, encodersRun);
  }

  // ---------------------------------------------------------------------
  // _parse_fps

  const DefaultFps := 30.0

  /** `_parse_fps`, with Python's `float()` given as `toFloat` (`None` where
      it raises). A ratio needs exactly one slash, two readable numbers and
      a non-zero denominator; every failure gives 30. */
  function ParseFps(s: string, toFloat: string -> Option<real>): (r: real)
    ensures '/' !in s ==> r == toFloat(s).GetOr(DefaultFps)
    ensures '/' in s && |SplitOn(s, '/')| != 2 ==> r == DefaultFps
  {
    if '/' in s then
      var parts := SplitOn(s, '/');
      if |parts| == 2 && toFloat(parts[0]).Some? && toFloat(parts[1]).Some?
         && toFloat(parts[1]).value != 0.0
      then toFloat(parts[0]).value / toFloat(parts[1]).value
      else DefaultFps
    else toFloat(s).GetOr(DefaultFps)
  }

  /** `"a/b"` reads as `a / b` when both sides read and `b` is not zero,
      and as 30 otherwise. */
  lemma ParseFpsRatio(num: string, den: string, toFloat: string -> Option<real>)
    requires '/' !in num && '/' !in den
    ensures ParseFps(num + "/" + den, toFloat) ==
      if toFloat(num).Some? && toFloat(den).Some? && toFloat(den).value != 0.0
      then toFloat(num).value / toFloat(den).value
      else DefaultFps
  {
    var s := num + "/" + den;
    assert s == Join([num, den], '/');
    SplitJoin([num, den], '/');
    assert s[|num|] == '/';
  }

  /** A string with two slashes or more always reads as 30. */
  lemma ParseFpsManySlashes(a: string, b: string, c: string, toFloat: string -> Option<real>)
    requires '/' !in a && '/' !in b
    ensures ParseFps(a + "/" + b + "/" + c, toFloat) == DefaultFps
  {
    var s := a + "/" + b + "/" + c;
    var rest := SplitOn(c, '/');
    var parts := [a, b] + rest;
    assert parts[1..] == [b] + rest && ([b] + rest)[1..] == rest;
    JoinSplit(c, '/');
    assert Join([b] + rest, '/') == b + "/" + c;
    assert Join(parts, '/') == s;
    SplitJoin(parts, '/');
    assert s[|a|] == '/';
  }

  // ---------------------------------------------------------------------
  // concatenate_clips

  /** The path `concatenate_clips` takes. */
  datatype ConcatRoute =
    | NoClips                      // nothing to join: the call fails at once
    | SimpleCopy(clip: string)     // one clip, no transition: copied or muxed
    | ConcatList(clips: seq<string>) // the concat demuxer over a list file

  /** The route taken for `clips` with the given transition duration. */
  function RouteOf(clips: seq<string>, transitionDuration: real): (r: ConcatRoute)
    ensures r.NoClips? <==> |clips| == 0
    ensures r.SimpleCopy? <==> |clips| == 1 && transitionDuration == 0.0
  {
    if |clips| == 0 then NoClips
    else if |clips| == 1 && transitionDuration == 0.0 then SimpleCopy(clips[0])
    else ConcatList(clips)
  }

  /** The clips a route feeds to FFmpeg. */
  function RouteInputs(route: ConcatRoute): seq<string> {
    match route
    case NoClips => []
    case SimpleCopy(clip) => [clip]
    case ConcatList(clips) => clips
  }

  /** Whatever the route, FFmpeg is given exactly the clips passed in, in
      order; several clips always go through the list file. */
  lemma RouteKeepsClips(clips: seq<string>, transitionDuration: real)
    ensures RouteInputs(RouteOf(clips, transitionDuration)) == clips
    ensures |clips| >= 2 ==> RouteOf(clips, transitionDuration).ConcatList?
  {
    if |clips| == 1 {
      assert clips == [clips[0]];
    }
  }

  /** `concatenate_clips`: the outcome of the route's FFmpeg run, given as
      `simpleOk` and `listOk` (false where the run fails or raises). */
  function ConcatenateClips(clips: seq<string>, transitionDuration: real,
                            simpleOk: bool, listOk: bool): (ok: bool)
    ensures |clips| == 0 ==> !ok
    ensures ok ==> |clips| > 0 && (simpleOk || listOk)
    ensures |clips| >= 2 ==> ok == listOk
  {
    match RouteOf(clips, transitionDuration)
    case NoClips => false
    case SimpleCopy(_) => simpleOk
    case ConcatList(_) => listOk
  }

  // ---------------------------------------------------------------------
  // The concat list file

  /** `os.path.abspath` for a normalised path, against the working
      directory `cwd`. */
  function AbsPath(cwd: string, p: string): (r: string)
    ensures StartsWith(p, "/") ==> r == p
    ensures EndsWith(r, p)
    ensures StartsWith(cwd, "/") ==> StartsWith(r, "/")
  {
    if StartsWith(p, "/") then p
    else if EndsWith(cwd, "/") then
      assert (cwd + p)[..|cwd|] == cwd;
      cwd + p
    else
      assert (cwd + "/" + p)[..|cwd|] == cwd;
      cwd + "/" + p
  }

  /** One line of the list file. */
  function ListLine(path: string): string {
    "file '" + path + "'"
  }

  /** The list file's lines, one per clip in order. */
  function ListLines(clips: seq<string>, cwd: string): (lines: seq<string>)
    ensures |lines| == |clips|
    ensures forall k :: 0 <= k < |clips| ==> lines[k] == ListLine(AbsPath(cwd, clips[k]))
  {
    if |clips| == 0 then [] else [ListLine(AbsPath(cwd, clips[0]))] + ListLines(clips[1..], cwd)
  }

  /** The text `_xfade_concat` writes: each line followed by a newline. */
  function ListFile(clips: seq<string>, cwd: string): string {
    if |clips| == 0 then "" else ListLine(AbsPath(cwd, clips[0])) + "\n" + ListFile(clips[1..], cwd)
  }

  /** The path a list line names. */
  function Unquote(line: string): string {
    if |line| >= 7 && StartsWith(line, "file '") && EndsWith(line, "'") then line[6..|line| - 1] else line
  }

  /** The paths a list file names, one per newline-terminated line. */
  function ListedPaths(text: string): seq<string> {
    var lines := SplitOn(text, '\n');
    seq(|lines| - 1, k requires 0 <= k < |lines| - 1 => Unquote(lines[k]))
  }

  lemma {:induction false} ListFileIsJoin(clips: seq<string>, cwd: string)
    ensures ListFile(clips, cwd) == Join(ListLines(clips, cwd) + [""], '\n')
    decreases |clips|
  {
    if |clips| > 0 {
      ListFileIsJoin(clips[1..], cwd);
      var parts := ListLines(clips, cwd) + [""];
      assert parts[1..] == ListLines(clips[1..], cwd) + [""];
    }
  }

  lemma UnquoteListLine(path: string)
    ensures Unquote(ListLine(path)) == path
  {
    var line := ListLine(path);
    assert line[..6] == "file '";
    assert line[|line| - 1..] == "'";
    assert line[6..|line| - 1] == path;
  }

  lemma ListLinesWithoutNewline(clips: seq<string>, cwd: string)
    requires '\n' !in cwd
    requires forall k :: 0 <= k < |clips| ==> '\n' !in clips[k]
    ensures forall k :: 0 <= k < |clips| ==> '\n' !in ListLines(clips, cwd)[k]
  {
    forall k | 0 <= k < |clips|
      ensures '\n' !in ListLines(clips, cwd)[k]
    {
      var a := AbsPath(cwd, clips[k]);
      assert '\n' !in a;
      assert ListLine(a) == "file '" + a + "'";
    }
  }

  /** Reading the list file back gives the absolute path of every clip, in
      order, provided no path holds a newline. */
  lemma ListFileRoundTrip(clips: seq<string>, cwd: string)
    requires '\n' !in cwd
    requires forall k :: 0 <= k < |clips| ==> '\n' !in clips[k]
    ensures |ListedPaths(ListFile(clips, cwd))| == |clips|
    ensures forall k :: 0 <= k < |clips| ==> ListedPaths(ListFile(clips, cwd))[k] == AbsPath(cwd, clips[k])
  {
    var lines := ListLines(clips, cwd);
    var parts := lines + [""];
    ListFileIsJoin(clips, cwd);
    ListLinesWithoutNewline(clips, cwd);
    assert forall k :: 0 <= k < |parts| ==> '\n' !in parts[k] by {
      assert forall k :: 0 <= k < |lines| ==> parts[k] == lines[k];
    }
    SplitJoin(parts, '\n');
    assert SplitOn(ListFile(clips, cwd), '\n') == parts;
    forall k | 0 <= k < |clips|
      ensures ListedPaths(ListFile(clips, cwd))[k] == AbsPath(cwd, clips[k])
    {
      UnquoteListLine(AbsPath(cwd, clips[k]));
    }
  }
}
