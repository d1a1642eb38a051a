/**
 * The run of DiscordVideoShrink.py's `main`: validate the input, pick an
 * encoder, probe the duration, compute the bitrate, run both passes, report.
 * Everything the script learns from outside is a parameter: whether the
 * file exists, the `ffmpeg -codecs` text, what ffprobe's output parses to
 * (None when float() would raise), the OS name and the path separator. The
 * run returns the trace of what it prints and the commands it issues.
 */
module Shrink {
  import opened Wrappers
  import opened Bitrate
  import opened Encoders
  import opened Paths
  import opened Commands

  /** One observable step of a run: a line printed or an external command issued. */
  datatype Event =
    | Say(text: string)                         // a message without numbers
    | SayLength(seconds: real)                  // "Video length: ... seconds"
    | SayBitrate(kbps: real)                    // "Calculated video bitrate: ... kbps"
    | Probe(encoder: string, command: seq<string>) // check_encoder(encoder) lists the codecs
    | QueryLength(command: seq<string>)         // get_video_length runs ffprobe
    | Encode(args: seq<Arg>)                    // one ffmpeg pass

  /** The uncaught exceptions that end a run early. */
  datatype Fault =
    | ParseError     // float() rejects ffprobe's output
    | ZeroDivision   // the duration is zero

  /** How a run ends. */
  datatype Outcome =
    | FileMissing
    | Crashed(fault: Fault)
    | Finished(output: string)

  const FileMissingText: string := "File does not exist."
  const Libx264MissingText: string := "Encoder libx264 not found. Trying libx265."
  const Libx265MissingText: string := "Encoder libx265 not found. Using mpeg4."

  /** The closing message naming the output file. */
  function SavedText(output: string): string
  {
    "Re-encoded video saved as: " + output
  }

  predicate IsCommand(e: Event)
  {
    e.Probe? || e.QueryLength? || e.Encode?
  }

  /** The external commands of a trace, in the order they were issued. */
  function Issued(trace: seq<Event>): (cmds: seq<Event>)
    ensures |cmds| <= |trace|
    ensures forall k :: 0 <= k < |cmds| ==> IsCommand(cmds[k])
  {
    if trace == [] then []
    else (if IsCommand(trace[0]) then [trace[0]] else []) + Issued(trace[1..])
  }

  /** The fixed-text messages of a trace, in the order they were printed. */
  function Messages(trace: seq<Event>): seq<string>
  {
    if trace == [] then []
    else (if trace[0].Say? then [trace[0].text] else []) + Messages(trace[1..])
  }

  /** Picking out the commands commutes with appending to a trace. */
  lemma {:induction false} IssuedAppend(a: seq<Event>, b: seq<Event>)
    ensures Issued(a + b) == Issued(a) + Issued(b)
  {
    if a == [] {
      assert a + b == b;
    } else {
      var ab := a + b;
      assert ab[0] == a[0] && ab[1..] == a[1..] + b;
      IssuedAppend(a[1..], b);
    }
  }

  /** Picking out the messages commutes with appending to a trace. */
  lemma {:induction false} MessagesAppend(a: seq<Event>, b: seq<Event>)
    ensures Messages(a + b) == Messages(a) + Messages(b)
  {
    if a == [] {
      assert a + b == b;
    } else {
      var ab := a + b;
      assert ab[0] == a[0] && ab[1..] == a[1..] + b;
      MessagesAppend(a[1..], b);
    }
  }

  /** The codec-listing commands issued to probe the given encoders, in order. */
  function ProbeCommands(encoders: seq<string>): seq<Event>
  {
    seq(|encoders|, k requires 0 <= k < |encoders| => Probe(encoders[k], CodecsArgv()))
  }

  /**
   * The probes of the fallback chain: one listing when libx264 is reported,
   * two otherwise, each of them the plain codec listing.
   */
  lemma ChainProbes(codecs: string)
    ensures var cmds := ProbeCommands(ProbesUntil(Preference, codecs));
            && (|cmds| == 1 <==> CheckEncoder(codecs, "libx264"))
            && (|cmds| == 2 <==> !CheckEncoder(codecs, "libx264"))
            && forall c | c in cmds :: c.Probe? && c.command == CodecsArgv()
  {
  }

  /**
   * The fallback chain of `main`: probe libx264, then libx265, settling on
   * the first one listed and on mpeg4, unprobed, when neither is. Each miss
   * is announced right after the probe that revealed it.
   */
  method SelectEncoder(codecs: string) returns (encoder: string, trace: seq<Event>)
    ensures encoder == ChosenEncoder(codecs)
    ensures trace ==
              if encoder == "libx264" then [Probe("libx264", CodecsArgv())]
              else [Probe("libx264", CodecsArgv()), Say(Libx264MissingText), Probe("libx265", CodecsArgv())]
                   + if encoder == "libx265" then [] else [Say(Libx265MissingText)]
    ensures Issued(trace) == ProbeCommands(ProbesUntil(Preference, codecs))
    ensures Messages(trace) ==
              if encoder == "libx264" then []
              else [Libx264MissingText] + if encoder == "libx265" then [] else [Libx265MissingText]
  {
    ChosenEncoderCases(codecs);
    ProbesShortCircuit(codecs);
    encoder := "libx264";
    trace := [Probe(encoder, CodecsArgv())];
    if !CheckEncoder(codecs, encoder) {
      IssuedAppend(trace, [Say(Libx264MissingText)]);
      MessagesAppend(trace, [Say(Libx264MissingText)]);
      trace := trace + [Say(Libx264MissingText)];
      encoder := "libx265";
      IssuedAppend(trace, [Probe(encoder, CodecsArgv())]);
      MessagesAppend(trace, [Probe(encoder, CodecsArgv())]);
      trace := trace + [Probe(encoder, CodecsArgv())];
      if !CheckEncoder(codecs, encoder) {
        IssuedAppend(trace, [Say(Libx265MissingText)]);
        MessagesAppend(trace, [Say(Libx265MissingText)]);
        trace := trace + [Say(Libx265MissingText)];
        encoder := "mpeg4";
      }
    }
  }

  /** The two ffmpeg passes, as commands of a trace. */
  function TwoPasses(input: string, output: string, kbps: real, encoder: string, osName: string): seq<Event>
  {
    [Encode(Pass1Argv(input, kbps, encoder, osName)), Encode(Pass2Argv(input, output, kbps, encoder))]
  }

  /**
   * The two passes as ffmpeg reads them: the same input, encoder and bitrate
   * in both; only pass 1 drops audio and ends with the null sink, only pass 2
   * copies it and ends with the output file; both are commands of the trace.
   */
  lemma TwoPassesAgree(input: string, output: string, kbps: real, encoder: string, osName: string)
    ensures var passes := TwoPasses(input, output, kbps, encoder, osName);
            && Issued(passes) == passes
            && (forall flag | flag in {"-i", "-c:v", "-b:v"} ::
                  Setting(passes[0].args, flag) == Setting(passes[1].args, flag))
            && Setting(passes[0].args, "-i") == Some(Lit(input))
            && Setting(passes[0].args, "-c:v") == Some(Lit(encoder))
            && Setting(passes[0].args, "-b:v") == Some(Kbps(kbps))
            && Setting(passes[0].args, "-pass") == Some(Lit("1"))
            && Setting(passes[1].args, "-pass") == Some(Lit("2"))
            && HasSwitch(passes[0].args, "-an") && !HasSwitch(passes[1].args, "-an")
            && Setting(passes[0].args, "-c:a") == None
            && Setting(passes[1].args, "-c:a") == Some(Lit("copy"))
            && passes[0].args[|passes[0].args| - 1] == Lit(NullSink(osName))
            && passes[1].args[|passes[1].args| - 1] == Lit(output)
  {
    var passes := TwoPasses(input, output, kbps, encoder, osName);
    Pass1Settings(input, kbps, encoder, osName);
    Pass2Settings(input, output, kbps, encoder);
    PassesShareSettings(input, output, kbps, encoder, osName);
    assert passes[1..][1..] == [];
  }

  /**
   * reencode_video_two_pass: pass 1 then pass 2, unconditionally (exit
   * statuses are never looked at).
   */
  method ReencodeVideoTwoPass(input: string, output: string, kbps: real, encoder: string, osName: string)
    returns (trace: seq<Event>)
    ensures trace == TwoPasses(input, output, kbps, encoder, osName)
  {
    var pass1 := Encode(Pass1Argv(input, kbps, encoder, osName));
    trace := [pass1];
    var pass2 := Encode(Pass2Argv(input, output, kbps, encoder));
    trace := trace + [pass2];
  }

  /**
   * The second half of `main`: query the duration, compute the bitrate, run
   * both passes and report. A duration that does not parse or is zero ends
   * the run before any pass; otherwise both passes use the given encoder and
   * the bitrate computed from the duration.
   */
  method ProbeAndEncode(path: string, output: string, encoder: string, lengthOutput: Option<real>, osName: string)
    returns (trace: seq<Event>, outcome: Outcome)
    ensures lengthOutput.None? ==> outcome == Crashed(ParseError)
    ensures lengthOutput == Some(0.0) ==> outcome == Crashed(ZeroDivision)
    ensures outcome.Finished? <==> lengthOutput.Some? && lengthOutput.value != 0.0
    ensures outcome.Finished? ==> outcome.output == output
                                  && trace != [] && trace[|trace| - 1] == Say(SavedText(output))
    ensures Issued(trace) ==
              [QueryLength(LengthArgv(path))]
              + if outcome.Finished? then
                  TwoPasses(path, output, VideoBitrateKbps(lengthOutput.value, TargetSizeMb, AudioBitrateKbps),
                            encoder, osName)
                else []
  {
    var query := QueryLength(LengthArgv(path));
    trace := [query];
    assert Issued(trace) == [query];
    if lengthOutput.None? {
      outcome := Crashed(ParseError);
      return;
    }
    var videoLength := lengthOutput.value;
    IssuedAppend(trace, [SayLength(videoLength)]);
    trace := trace + [SayLength(videoLength)];
    if videoLength == 0.0 {
      outcome := Crashed(ZeroDivision);
      return;
    }

    var kbps := VideoBitrateKbps(videoLength, TargetSizeMb, AudioBitrateKbps);
    IssuedAppend(trace, [SayBitrate(kbps)]);
    trace := trace + [SayBitrate(kbps)];
    var passes := ReencodeVideoTwoPass(path, output, kbps, encoder, osName);
    TwoPassesAgree(path, output, kbps, encoder, osName);
    IssuedAppend(trace, passes);
    trace := trace + passes;
    IssuedAppend(trace, [Say(SavedText(output))]);
    trace := trace + [Say(SavedText(output))];
    outcome := Finished(output);
  }

  /**
   * `main`. A missing file prints one message and issues nothing. Otherwise
   * the commands are, in order: the encoder probes, the duration query, and
   * (when the duration parses and is not zero) both passes with the chosen
   * encoder and the computed bitrate; the run ends naming the output.
   */
  method Run(path: string, fileExists: bool, codecs: string, lengthOutput: Option<real>, osName: string, sep: char)
    returns (trace: seq<Event>, outcome: Outcome)
    ensures outcome == FileMissing <==> !fileExists
    ensures !fileExists ==> trace == [Say(FileMissingText)] && Issued(trace) == []
    ensures fileExists && lengthOutput.None? ==> outcome == Crashed(ParseError)
    ensures fileExists && lengthOutput == Some(0.0) ==> outcome == Crashed(ZeroDivision)
    ensures outcome.Finished? <==> fileExists && lengthOutput.Some? && lengthOutput.value != 0.0
    ensures outcome.Finished? ==> outcome.output == OutputName(path, sep)
                                  && trace != [] && trace[|trace| - 1] == Say(SavedText(outcome.output))
    ensures fileExists ==>
              Issued(trace) ==
                ProbeCommands(ProbesUntil(Preference, codecs))
                + ([QueryLength(LengthArgv(path))]
                   + if outcome.Finished? then
                       TwoPasses(path, outcome.output, VideoBitrateKbps(lengthOutput.value, TargetSizeMb, AudioBitrateKbps),
                                 ChosenEncoder(codecs), osName)
                     else [])
  {
    if !fileExists {
      trace := [Say(FileMissingText)];
      outcome := FileMissing;
      return;
    }

    var encoder, selection := SelectEncoder(codecs);
    var output := OutputName(path, sep);
    var rest;
    rest, outcome := ProbeAndEncode(path, output, encoder, lengthOutput, osName);
    IssuedAppend(selection, rest);
    trace := selection + rest;
    if outcome.Finished? {
      assert trace[|trace| - 1] == rest[|rest| - 1];
    }
  }
}
