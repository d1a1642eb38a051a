/**
 * The external commands DiscordVideoShrink.py builds: the codec listing
 * query, the ffprobe duration query and the two ffmpeg passes of
 * reencode_video_two_pass. The bitrate argument is kept as a token holding
 * the exact kbps value; the text Python would format for it is not modelled.
 */
module Commands {
  import opened Wrappers

  /** One ffmpeg argument: literal text, or the bitrate token f'{kbps}k'. */
  datatype Arg = Lit(text: string) | Kbps(rate: real)

  /** The command check_encoder runs to list the codecs. */
  function CodecsArgv(): seq<string>
  {
    ["ffmpeg", "-codecs"]
  }

  /** The ffprobe command get_video_length runs on the input. */
  function LengthArgv(input: string): (argv: seq<string>)
    ensures |argv| == 8 && argv[0] == "ffprobe" && argv[7] == input
    ensures argv[3] == "-show_entries" && argv[4] == "format=duration"
  {
    ["ffprobe", "-v", "error", "-show_entries", "format=duration",
     "-of", "default=noprint_wrappers=1:nokey=1", input]
  }

  /** The null sink pass 1 writes to: "NUL" when os.name is "nt", else "/dev/null". */
  function NullSink(osName: string): (sink: string)
    ensures sink == "NUL" <==> osName == "nt"
    ensures sink == "/dev/null" <==> osName != "nt"
  {
    if osName != "nt" then "/dev/null" else "NUL"
  }

  /** The first (analysis) pass: video only, output discarded. */
  function Pass1Argv(input: string, kbps: real, encoder: string, osName: string): seq<Arg>
  {
    [Lit("ffmpeg"), Lit("-y"), Lit("-i"), Lit(input), Lit("-c:v"), Lit(encoder),
     Lit("-b:v"), Kbps(kbps), Lit("-pass"), Lit("1"), Lit("-an"),
     Lit("-f"), Lit("null"), Lit(NullSink(osName))]
  }

  /** The second (final) pass: audio copied, every stream mapped, output written. */
  function Pass2Argv(input: string, output: string, kbps: real, encoder: string): seq<Arg>
  {
    [Lit("ffmpeg"), Lit("-i"), Lit(input), Lit("-c:v"), Lit(encoder),
     Lit("-b:v"), Kbps(kbps), Lit("-pass"), Lit("2"), Lit("-c:a"), Lit("copy"),
     Lit("-map"), Lit("0"), Lit(output)]
  }

  /** The options among those used here that take no value. */
  predicate IsSwitch(a: Arg)
  {
    a == Lit("-y") || a == Lit("-an")
  }

  /**
   * The value ffmpeg reads for option `flag` when it scans the command line
   * from position `i`: options are read left to right, a switch takes no
   * value, any other option takes the next argument, and a lone last argument
   * is the output file.
   */
  function SettingFrom(argv: seq<Arg>, flag: string, i: nat): Option<Arg>
    decreases |argv| - i
  {
    if i + 2 > |argv| then None
    else if argv[i] == Lit(flag) then Some(argv[i + 1])
    else if IsSwitch(argv[i]) then SettingFrom(argv, flag, i + 1)
    else SettingFrom(argv, flag, i + 2)
  }

  /** Whether ffmpeg reads switch `flag` when it scans from position `i`. */
  function HasSwitchFrom(argv: seq<Arg>, flag: string, i: nat): bool
    decreases |argv| - i
  {
    if i + 2 > |argv| then false
    else if argv[i] == Lit(flag) then true
    else if IsSwitch(argv[i]) then HasSwitchFrom(argv, flag, i + 1)
    else HasSwitchFrom(argv, flag, i + 2)
  }

  /** The value of option `flag` on a command line (after the program name). */
  function Setting(argv: seq<Arg>, flag: string): Option<Arg>
  {
    SettingFrom(argv, flag, 1)
  }

  /** Whether switch `flag` is given on a command line (after the program name). */
  function HasSwitch(argv: seq<Arg>, flag: string): bool
  {
    HasSwitchFrom(argv, flag, 1)
  }

  /**
   * Pass 1 as ffmpeg reads it: input, encoder and bitrate as given, pass
   * "1", overwrite (-y), no audio (-an), format null, written to the null
   * sink. Whatever the paths hold, they are read as values, never as options.
   */
  lemma Pass1Settings(input: string, kbps: real, encoder: string, osName: string)
    ensures var p1 := Pass1Argv(input, kbps, encoder, osName);
            && Setting(p1, "-i") == Some(Lit(input))
            && Setting(p1, "-c:v") == Some(Lit(encoder))
            && Setting(p1, "-b:v") == Some(Kbps(kbps))
            && Setting(p1, "-pass") == Some(Lit("1"))
            && Setting(p1, "-f") == Some(Lit("null"))
            && Setting(p1, "-c:a") == None
            && HasSwitch(p1, "-y") && HasSwitch(p1, "-an")
            && p1[|p1| - 1] == Lit(NullSink(osName))
  {
    var p1 := Pass1Argv(input, kbps, encoder, osName);
    // ffmpeg reads options at positions 1 (-y), 2, 4, 6, 8, 10 (-an) and 11;
    // position 13 is the output.
    forall flag | flag in {"-i", "-c:v", "-b:v", "-pass", "-f", "-c:a", "-an"}
      ensures SettingFrom(p1, flag, 1) == SettingFrom(p1, flag, 2)
      ensures HasSwitchFrom(p1, flag, 1) == HasSwitchFrom(p1, flag, 2)
    {
    }
    assert SettingFrom(p1, "-c:v", 2) == SettingFrom(p1, "-c:v", 4);
    assert SettingFrom(p1, "-b:v", 2) == SettingFrom(p1, "-b:v", 4) == SettingFrom(p1, "-b:v", 6);
    assert SettingFrom(p1, "-pass", 2) == SettingFrom(p1, "-pass", 4) == SettingFrom(p1, "-pass", 6)
        == SettingFrom(p1, "-pass", 8);
    assert SettingFrom(p1, "-f", 2) == SettingFrom(p1, "-f", 4) == SettingFrom(p1, "-f", 6)
        == SettingFrom(p1, "-f", 8) == SettingFrom(p1, "-f", 10) == SettingFrom(p1, "-f", 11);
    assert SettingFrom(p1, "-c:a", 2) == SettingFrom(p1, "-c:a", 4) == SettingFrom(p1, "-c:a", 6)
        == SettingFrom(p1, "-c:a", 8) == SettingFrom(p1, "-c:a", 10) == SettingFrom(p1, "-c:a", 11)
        == SettingFrom(p1, "-c:a", 13) == None;
    assert HasSwitchFrom(p1, "-an", 2) == HasSwitchFrom(p1, "-an", 4) == HasSwitchFrom(p1, "-an", 6)
        == HasSwitchFrom(p1, "-an", 8) == HasSwitchFrom(p1, "-an", 10) == true;
  }

  /**
   * Pass 2 as ffmpeg reads it: the same input, encoder and bitrate as pass
   * 1, pass "2", audio copied, stream 0 mapped, neither -y nor -an, and the
   * output file last.
   */
  lemma Pass2Settings(input: string, output: string, kbps: real, encoder: string)
    ensures var p2 := Pass2Argv(input, output, kbps, encoder);
            && Setting(p2, "-i") == Some(Lit(input))
            && Setting(p2, "-c:v") == Some(Lit(encoder))
            && Setting(p2, "-b:v") == Some(Kbps(kbps))
            && Setting(p2, "-pass") == Some(Lit("2"))
            && Setting(p2, "-c:a") == Some(Lit("copy"))
            && Setting(p2, "-map") == Some(Lit("0"))
            && !HasSwitch(p2, "-an") && !HasSwitch(p2, "-y")
            && p2[|p2| - 1] == Lit(output)
  {
    var p2 := Pass2Argv(input, output, kbps, encoder);
    // ffmpeg reads options at positions 1, 3, 5, 7, 9 and 11; position 13
    // is the output.
    assert SettingFrom(p2, "-c:v", 1) == SettingFrom(p2, "-c:v", 3);
    assert SettingFrom(p2, "-b:v", 1) == SettingFrom(p2, "-b:v", 3) == SettingFrom(p2, "-b:v", 5);
    assert SettingFrom(p2, "-pass", 1) == SettingFrom(p2, "-pass", 3) == SettingFrom(p2, "-pass", 5)
        == SettingFrom(p2, "-pass", 7);
    assert SettingFrom(p2, "-c:a", 1) == SettingFrom(p2, "-c:a", 3) == SettingFrom(p2, "-c:a", 5)
        == SettingFrom(p2, "-c:a", 7) == SettingFrom(p2, "-c:a", 9);
    assert SettingFrom(p2, "-map", 1) == SettingFrom(p2, "-map", 3) == SettingFrom(p2, "-map", 5)
        == SettingFrom(p2, "-map", 7) == SettingFrom(p2, "-map", 9) == SettingFrom(p2, "-map", 11);
    forall flag | flag in {"-an", "-y"}
      ensures !HasSwitchFrom(p2, flag, 1)
    {
      assert HasSwitchFrom(p2, flag, 1) == HasSwitchFrom(p2, flag, 3) == HasSwitchFrom(p2, flag, 5)
          == HasSwitchFrom(p2, flag, 7) == HasSwitchFrom(p2, flag, 9) == HasSwitchFrom(p2, flag, 11)
          == HasSwitchFrom(p2, flag, 13) == false;
    }
  }

  /**
   * The two passes agree on everything they share: ffmpeg reads the same
   * input, encoder and bitrate from both.
   */
  lemma PassesShareSettings(input: string, output: string, kbps: real, encoder: string, osName: string)
    ensures forall flag | flag in {"-i", "-c:v", "-b:v"} ::
              Setting(Pass1Argv(input, kbps, encoder, osName), flag)
              == Setting(Pass2Argv(input, output, kbps, encoder), flag) != None
  {
    Pass1Settings(input, kbps, encoder, osName);
    Pass2Settings(input, output, kbps, encoder);
  }
}
