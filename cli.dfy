/**
 * The option handling of `main` (video-edit.py:104-160): defaults, the
 * loop over the (option, argument) pairs that getopt returns, and the
 * choice between downloading the music and using a given music directory.
 * getopt's tokenising is not modelled: its result is an input.
 */
module Cli {
  import opened Wrappers
  import Paths

  /** The music volume factor: 0.2 by default, otherwise `float(arg)`, kept as the text. */
  datatype GainValue = DefaultGain | ParsedGain(text: string)

  /** The configuration variables of `main`; `musicDir == None` is Python's `None`. */
  datatype Config = Config(
    linksPath: string,
    videoDir: string,
    musicDir: Option<string>,
    destPath: string,
    codec: string,
    bitrate: string,
    gain: GainValue,
    order: string)

  /** The values set before the options are read (video-edit.py:105-113). */
  function Defaults(cwd: string): Config
  {
    Config(
      linksPath := cwd + "/files/music/links.txt",
      videoDir := cwd + "/files/videos/",
      musicDir := None,
      destPath := cwd + "/result.mp4",
      codec := "libx264",
      bitrate := "20M",
      gain := DefaultGain,
      order := "date")
  }

  /** One (option, argument) pair as getopt returns it. */
  datatype Opt = Opt(name: string, arg: string)

  /** The configuration variable a dispatch branch assigns. */
  datatype Field = Bitrate | Codec | Destination | Volume | LinksFile | MusicDir | Order | VideosDir

  /** The value of one configuration variable. */
  datatype Setting = Text(text: string) | Level(gain: GainValue) | Dir(dir: Option<string>)

  function Get(c: Config, f: Field): Setting
  {
    match f
    case Bitrate => Text(c.bitrate)
    case Codec => Text(c.codec)
    case Destination => Text(c.destPath)
    case Volume => Level(c.gain)
    case LinksFile => Text(c.linksPath)
    case MusicDir => Dir(c.musicDir)
    case Order => Text(c.order)
    case VideosDir => Text(c.videoDir)
  }

  /** What the branch for `f` stores for argument `arg`. */
  function Written(f: Field, arg: string): Setting
  {
    match f
    case Volume => Level(ParsedGain(arg))
    case MusicDir => Dir(Some(arg))
    case _ => Text(arg)
  }

  /** Assigning one variable: it takes the argument, every other one is kept. */
  function Assign(c: Config, f: Field, arg: string): (r: Config)
    ensures Get(r, f) == Written(f, arg)
    ensures forall g :: g != f ==> Get(r, g) == Get(c, g)
  {
    match f
    case Bitrate => c.(bitrate := arg)
    case Codec => c.(codec := arg)
    case Destination => c.(destPath := arg)
    case Volume => c.(gain := ParsedGain(arg))
    case LinksFile => c.(linksPath := arg)
    case MusicDir => c.(musicDir := Some(arg))
    case Order => c.(order := arg)
    case VideosDir => c.(videoDir := arg)
  }

  predicate IsHelp(name: string)
  {
    name == "-h" || name == "--help"
  }

  /**
   * The `elif` chain after the help test (video-edit.py:141-156): which
   * variable an option name assigns. The gain and music branches test
   * `--volume` and `--music-file`, names getopt never returns.
   */
  function Dispatch(name: string): Option<Field>
  {
    if name == "-b" || name == "--bitrate" then Some(Bitrate)
    else if name == "-c" || name == "--codec" then Some(Codec)
    else if name == "-d" || name == "--destination" then Some(Destination)
    else if name == "-g" || name == "--volume" then Some(Volume)
    else if name == "-l" || name == "--links-file" then Some(LinksFile)
    else if name == "-m" || name == "--music-file" then Some(MusicDir)
    else if name == "-o" || name == "--order" then Some(Order)
    else if name == "-v" || name == "--videos-dir" then Some(VideosDir)
    else None
  }

  /** One pass of the loop body for a non-help option. */
  function Step(c: Config, o: Opt): Config
  {
    match Dispatch(o.name)
    case None => c
    case Some(f) => Assign(c, f, o.arg)
  }

  /** The loop either stops at a help option or yields the final configuration. */
  datatype Folded = HelpRequested | Configured(config: Config)

  /** The loop over the options (video-edit.py:135-156), as a fold from the left. */
  function Fold(c: Config, opts: seq<Opt>): Folded
    decreases |opts|
  {
    if opts == [] then Configured(c)
    else if IsHelp(opts[0].name) then HelpRequested
    else Fold(Step(c, opts[0]), opts[1..])
  }

  /** What getopt hands to the loop: the options, or a parse error. */
  datatype Parsed = Options(opts: seq<Opt>) | GetoptError

  /**
   * What the pipeline is started with. `download` holds the links file
   * when the music is to be downloaded first.
   */
  datatype Plan = Plan(
    download: Option<string>,
    musicDir: string,
    videoDir: string,
    order: string,
    destPath: string,
    codec: string,
    bitrate: string,
    gain: GainValue)

  /** `main` ends with an exit status, or goes on to run the pipeline. */
  datatype Outcome = Exit(status: int) | Proceed(plan: Plan)

  const UsageError: int := 2
  const HelpExit: int := 0

  /** The download decision (video-edit.py:158-160). */
  function Resolve(c: Config): Plan
  {
    var download := if c.musicDir.None? then Some(c.linksPath) else None;
    var musicDir := if c.musicDir.None? then Paths.GetMusicDir(c.linksPath) else c.musicDir.value;
    Plan(download, musicDir, c.videoDir, c.order, c.destPath, c.codec, c.bitrate, c.gain)
  }

  /** The specification of `main` up to the start of the pipeline. */
  function MainOutcome(cwd: string, parsed: Parsed): Outcome
  {
    match parsed
    case GetoptError => Exit(UsageError)
    case Options(opts) =>
      match Fold(Defaults(cwd), opts)
      case HelpRequested => Exit(HelpExit)
      case Configured(c) => Proceed(Resolve(c))
  }

  /**
   * `main` up to the start of the pipeline: defaults, the option loop with
   * its early exit on help, and the download decision.
   */
  method Configure(cwd: string, parsed: Parsed) returns (r: Outcome)
    ensures r == MainOutcome(cwd, parsed)
  {
    if parsed.GetoptError? {
      return Exit(UsageError);
    }
    var opts := parsed.opts;
    var c := Defaults(cwd);
    var i := 0;
    while i < |opts|
      invariant 0 <= i <= |opts|
      invariant Fold(Defaults(cwd), opts) == Fold(c, opts[i..])
    {
      var name, arg := opts[i].name, opts[i].arg;
      if name == "-h" || name == "--help" {
        return Exit(HelpExit);
      } else if name == "-b" || name == "--bitrate" {
        c := c.(bitrate := arg);
      } else if name == "-c" || name == "--codec" {
        c := c.(codec := arg);
      } else if name == "-d" || name == "--destination" {
        c := c.(destPath := arg);
      } else if name == "-g" || name == "--volume" {
        c := c.(gain := ParsedGain(arg));
      } else if name == "-l" || name == "--links-file" {
        c := c.(linksPath := arg);
      } else if name == "-m" || name == "--music-file" {
        c := c.(musicDir := Some(arg));
      } else if name == "-o" || name == "--order" {
        c := c.(order := arg);
      } else if name == "-v" || name == "--videos-dir" {
        c := c.(videoDir := arg);
      }
      assert opts[i..][1..] == opts[i + 1..];
      i := i + 1;
    }
    if c.musicDir.None? {
      r := Proceed(Plan(Some(c.linksPath), Paths.GetMusicDir(c.linksPath), c.videoDir, c.order, c.destPath, c.codec, c.bitrate, c.gain));
    } else {
      r := Proceed(Plan(None, c.musicDir.value, c.videoDir, c.order, c.destPath, c.codec, c.bitrate, c.gain));
    }
  }

  // Properties of the option loop

  /** The loop stops with help exactly when some option is `-h` or `--help`, whatever follows it. */
  lemma {:induction false} HelpIffPresent(c: Config, opts: seq<Opt>)
    ensures Fold(c, opts) == HelpRequested <==> exists i :: 0 <= i < |opts| && IsHelp(opts[i].name)
    decreases |opts|
  {
    if opts != [] && !IsHelp(opts[0].name) {
      HelpIffPresent(Step(c, opts[0]), opts[1..]);
      if exists i :: 0 <= i < |opts| && IsHelp(opts[i].name) {
        var i :| 0 <= i < |opts| && IsHelp(opts[i].name);
        assert opts[1..][i - 1] == opts[i];
      }
    }
  }

  /** A variable that no option assigns keeps its initial value. */
  lemma {:induction false} UnassignedKeepsValue(c: Config, opts: seq<Opt>, f: Field)
    requires forall i :: 0 <= i < |opts| ==> Dispatch(opts[i].name) != Some(f)
    ensures Fold(c, opts).Configured? ==> Get(Fold(c, opts).config, f) == Get(c, f)
    decreases |opts|
  {
    if opts != [] && !IsHelp(opts[0].name) {
      UnassignedKeepsValue(Step(c, opts[0]), opts[1..], f);
    }
  }

  /** When several options assign a variable, the last one wins. */
  lemma {:induction false} LastAssignmentWins(c: Config, opts: seq<Opt>, i: int, f: Field)
    requires 0 <= i < |opts| && Dispatch(opts[i].name) == Some(f)
    requires forall j :: i < j < |opts| ==> Dispatch(opts[j].name) != Some(f)
    ensures Fold(c, opts).Configured? ==> Get(Fold(c, opts).config, f) == Written(f, opts[i].arg)
    decreases |opts|
  {
    if !IsHelp(opts[0].name) {
      if i == 0 {
        UnassignedKeepsValue(Step(c, opts[0]), opts[1..], f);
      } else {
        LastAssignmentWins(Step(c, opts[0]), opts[1..], i - 1, f);
      }
    }
  }

  /** Where each short flag is dispatched. */
  lemma ShortFlagsDispatch()
    ensures Dispatch("-b") == Some(Bitrate) && Dispatch("-c") == Some(Codec)
    ensures Dispatch("-d") == Some(Destination) && Dispatch("-g") == Some(Volume)
    ensures Dispatch("-l") == Some(LinksFile) && Dispatch("-m") == Some(MusicDir)
    ensures Dispatch("-o") == Some(Order) && Dispatch("-v") == Some(VideosDir)
  {
  }

  /** A dispatched option assigns its own variable and leaves the other seven alone. */
  lemma StepAssignsOnlyItsVariable(c: Config, o: Opt)
    ensures Dispatch(o.name).Some? ==> Get(Step(c, o), Dispatch(o.name).value) == Written(Dispatch(o.name).value, o.arg)
    ensures forall g :: Some(g) != Dispatch(o.name) ==> Get(Step(c, o), g) == Get(c, g)
  {
  }

  // The options getopt is told to accept (video-edit.py:117-128)

  const ShortOptions: string := "hl:v:m:d:c:b:g:o:"
  const LongOptions: seq<string> := ["links-file=", "videos-dir=", "music-dir=", "destination=",
                                    "codec=", "bitrate=", "gain=", "order=", "help"]

  /** `-x` is accepted when `x` is a letter of the short-option string (`:` marks an argument). */
  predicate ShortAccepted(name: string)
  {
    exists k :: 0 <= k < |ShortOptions| && ShortOptions[k] != ':' && name == ['-', ShortOptions[k]]
  }

  /** An entry's option name: the entry without its trailing `=`, which marks an argument. */
  function LongName(spec: string): string
  {
    if |spec| > 0 && spec[|spec| - 1] == '=' then spec[..|spec| - 1] else spec
  }

  /** `--name` is accepted when `name` or `name=` is a long-option entry. */
  predicate LongAccepted(name: string)
  {
    exists k :: 0 <= k < |LongOptions| && name == "--" + LongName(LongOptions[k])
  }

  /** The option names getopt can return for this registration. */
  predicate Accepted(name: string)
  {
    ShortAccepted(name) || LongAccepted(name)
  }

  const ShortNames: seq<string> := ["-h", "-l", "-v", "-m", "-d", "-c", "-b", "-g", "-o"]
  const LongNames: seq<string> :=
    ["--links-file", "--videos-dir", "--music-dir", "--destination",
     "--codec", "--bitrate", "--gain", "--order", "--help"]

  lemma ShortAcceptedListed(name: string)
    ensures ShortAccepted(name) <==> name in ShortNames
  {
    if ShortAccepted(name) {
      var k :| 0 <= k < |ShortOptions| && ShortOptions[k] != ':' && name == ['-', ShortOptions[k]];
      assert k == 0 || k == 1 || k == 3 || k == 5 || k == 7 || k == 9 || k == 11 || k == 13 || k == 15;
    }
    if name in ShortNames {
      var i :| 0 <= i < |ShortNames| && ShortNames[i] == name;
      var k := if i == 0 then 0 else 2 * i - 1;
      assert name == ['-', ShortOptions[k]];
    }
  }

  lemma LongNamesOfEntries()
    ensures forall k :: 0 <= k < |LongOptions| ==> "--" + LongName(LongOptions[k]) == LongNames[k]
  {
    forall k | 0 <= k < |LongOptions| ensures "--" + LongName(LongOptions[k]) == LongNames[k] {
      LongNameOfEntry(k);
    }
  }

  /** One registered entry and its option name. */
  lemma LongNameOfEntry(k: int)
    requires 0 <= k < |LongOptions|
    ensures "--" + LongName(LongOptions[k]) == LongNames[k]
  {
    var e := LongOptions[k];
    if e[|e| - 1] == '=' {
      assert LongName(e) == e[..|e| - 1];
    }
  }

  lemma LongAcceptedListed(name: string)
    ensures LongAccepted(name) <==> name in LongNames
  {
    LongNamesOfEntries();
    if name in LongNames {
      var i :| 0 <= i < |LongNames| && LongNames[i] == name;
      assert name == "--" + LongName(LongOptions[i]);
    }
  }

  /** Where each accepted long option is dispatched. */
  lemma LongOptionsDispatch()
    ensures Dispatch("--links-file") == Some(LinksFile) && Dispatch("--videos-dir") == Some(VideosDir)
    ensures Dispatch("--destination") == Some(Destination) && Dispatch("--codec") == Some(Codec)
    ensures Dispatch("--bitrate") == Some(Bitrate) && Dispatch("--order") == Some(Order)
    ensures Dispatch("--gain") == None && Dispatch("--music-dir") == None
  {
  }

  /**
   * Every option getopt accepts, other than help, reaches a dispatch
   * branch, except `--gain` and `--music-dir`, which reach none.
   */
  lemma AcceptedOptionsReachBranch(name: string)
    requires Accepted(name) && !IsHelp(name)
    ensures Dispatch(name).None? <==> name == "--gain" || name == "--music-dir"
  {
    ShortAcceptedListed(name);
    LongAcceptedListed(name);
    if name in ShortNames {
      ShortFlagsDispatch();
      var i :| 0 <= i < |ShortNames| && ShortNames[i] == name;
      assert 1 <= i <= 8;
      assert |name| == 2;
    } else {
      LongOptionsDispatch();
      var i :| 0 <= i < |LongNames| && LongNames[i] == name;
      if i == 0 || i == 1 || i == 3 || i == 4 || i == 5 || i == 7 {
        assert |name| != 6 && |name| != 11;
      }
    }
  }

  /**
   * getopt accepts `--gain` and `--music-dir`, while the branches for
   * `--volume` and `--music-file` test names it never returns.
   */
  lemma GainAndMusicDirMisdispatched()
    ensures Accepted("--gain") && Dispatch("--gain").None?
    ensures Accepted("--music-dir") && Dispatch("--music-dir").None?
    ensures !Accepted("--volume") && !Accepted("--music-file")
  {
    LongOptionsDispatch();
    LongAcceptedListed("--gain");
    LongAcceptedListed("--music-dir");
    ShortAcceptedListed("--volume");
    LongAcceptedListed("--volume");
    ShortAcceptedListed("--music-file");
    LongAcceptedListed("--music-file");
  }

  /** `--gain` and `--music-dir` leave the configuration as it was. */
  lemma LongGainAndMusicDirIgnored(c: Config, arg: string)
    ensures Step(c, Opt("--gain", arg)) == c
    ensures Step(c, Opt("--music-dir", arg)) == c
  {
  }

  // Properties of the download decision

  /**
   * The music is downloaded exactly when no option assigns the music
   * directory; the file downloaded is the configured links file, and the
   * music then lives next to it.
   */
  lemma DownloadIffNoMusicDir(cwd: string, opts: seq<Opt>)
    requires MainOutcome(cwd, Options(opts)).Proceed?
    ensures Fold(Defaults(cwd), opts).Configured?
    ensures var p := MainOutcome(cwd, Options(opts)).plan;
      && (p.download.Some? <==> forall i :: 0 <= i < |opts| ==> Dispatch(opts[i].name) != Some(MusicDir))
      && (p.download.Some? ==> p.download.value == Fold(Defaults(cwd), opts).config.linksPath)
      && (p.download.Some? ==> p.musicDir == Paths.GetMusicDir(p.download.value))
  {
    DownloadIffUnassigned(cwd, opts);
    ProceedResolves(cwd, opts);
  }

  /** The download half of `DownloadIffNoMusicDir`. */
  lemma DownloadIffUnassigned(cwd: string, opts: seq<Opt>)
    requires MainOutcome(cwd, Options(opts)).Proceed?
    ensures var p := MainOutcome(cwd, Options(opts)).plan;
      p.download.Some? <==> forall i :: 0 <= i < |opts| ==> Dispatch(opts[i].name) != Some(MusicDir)
  {
    if forall i :: 0 <= i < |opts| ==> Dispatch(opts[i].name) != Some(MusicDir) {
      UnassignedKeepsValue(Defaults(cwd), opts, MusicDir);
    } else {
      var i :| 0 <= i < |opts| && Dispatch(opts[i].name) == Some(MusicDir);
      LastMusicDirUsed(cwd, opts, LastAssigning(opts, MusicDir, i));
    }
  }

  /** The index of the last option that assigns `f`, given one at `i` or later. */
  function LastAssigning(opts: seq<Opt>, f: Field, i: int): (j: int)
    requires 0 <= i < |opts| && Dispatch(opts[i].name) == Some(f)
    ensures i <= j < |opts| && Dispatch(opts[j].name) == Some(f)
    ensures forall k :: j < k < |opts| ==> Dispatch(opts[k].name) != Some(f)
    decreases |opts| - i
  {
    if exists k :: i < k < |opts| && Dispatch(opts[k].name) == Some(f) then
      var k :| i < k < |opts| && Dispatch(opts[k].name) == Some(f);
      LastAssigning(opts, f, k)
    else i
  }

  /** A given music directory is used as it is, the last one given winning, and nothing is downloaded. */
  lemma LastMusicDirUsed(cwd: string, opts: seq<Opt>, i: int)
    requires MainOutcome(cwd, Options(opts)).Proceed?
    requires 0 <= i < |opts| && Dispatch(opts[i].name) == Some(MusicDir)
    requires forall j :: i < j < |opts| ==> Dispatch(opts[j].name) != Some(MusicDir)
    ensures var p := MainOutcome(cwd, Options(opts)).plan;
      p.download.None? && p.musicDir == opts[i].arg
  {
    LastAssignmentWins(Defaults(cwd), opts, i, MusicDir);
  }

  /** Going ahead means the loop ran to the end, and the plan is resolved from its configuration. */
  lemma ProceedResolves(cwd: string, opts: seq<Opt>)
    requires MainOutcome(cwd, Options(opts)).Proceed?
    ensures Fold(Defaults(cwd), opts).Configured?
    ensures MainOutcome(cwd, Options(opts)).plan == Resolve(Fold(Defaults(cwd), opts).config)
  {
  }

  /** Without a links-file option, the default links file is the one downloaded. */
  lemma DefaultLinksFileDownloaded(cwd: string, opts: seq<Opt>)
    requires MainOutcome(cwd, Options(opts)).Proceed?
    requires forall i :: 0 <= i < |opts| ==> Dispatch(opts[i].name) != Some(LinksFile)
    ensures var p := MainOutcome(cwd, Options(opts)).plan;
      p.download.Some? ==> p.download.value == cwd + "/files/music/links.txt"
  {
    UnassignedKeepsValue(Defaults(cwd), opts, LinksFile);
  }

  /** With links-file options, the last one given names the file downloaded. */
  lemma LastLinksFileDownloaded(cwd: string, opts: seq<Opt>, i: int)
    requires MainOutcome(cwd, Options(opts)).Proceed?
    requires 0 <= i < |opts| && Dispatch(opts[i].name) == Some(LinksFile)
    requires forall j :: i < j < |opts| ==> Dispatch(opts[j].name) != Some(LinksFile)
    ensures var p := MainOutcome(cwd, Options(opts)).plan;
      p.download.Some? ==> p.download.value == opts[i].arg
  {
    LastAssignmentWins(Defaults(cwd), opts, i, LinksFile);
  }

  /** A parse error exits with status 2, and a help option with status 0. */
  lemma ExitStatuses(cwd: string, opts: seq<Opt>)
    ensures MainOutcome(cwd, GetoptError) == Exit(2)
    ensures (exists i :: 0 <= i < |opts| && IsHelp(opts[i].name)) <==> MainOutcome(cwd, Options(opts)) == Exit(0)
  {
    HelpIffPresent(Defaults(cwd), opts);
  }
}
