# DiscordVideoShrink, modelled in Dafny

DiscordVideoShrink re-encodes a video so that it fits a target file size
(24.5 MB). It reads a path, checks that the file exists, picks a video
encoder (`libx264`, else `libx265`, else `mpeg4`) by searching the text
`ffmpeg -codecs` prints, asks ffprobe for the clip's duration, computes a
video bitrate that leaves room for two 192 kbps audio streams, and runs
ffmpeg twice (two-pass encoding). The output is `reencoded_<basename>`.

This project models the decisions the script takes around those external
calls. Anything the script learns from outside is a parameter of the model:

- whether the file exists;
- the `ffmpeg -codecs` text;
- what ffprobe's output parses to (`None` when `float()` would raise);
- `os.name` and the path separator.

The run returns a trace of what it prints and which commands it issues.

- `wrappers.dfy`: `Option`.
- `bitrate.dfy` (module `Bitrate`): `calculate_video_bitrate` over exact
  reals, with the script's constants. It proves the budget equation, the
  closed form, when the result is negative (it is never clamped), and that
  the result rises with the target size and falls with the audio bitrate and
  the duration. For a one-minute clip with the script's constants the result
  is exactly 5702528/1875 kbps (about 3041.35 kbps).
- `encoders.dfy` (module `Encoders`): `check_encoder` as a substring search
  of the codec listing (Python's `in`), proved equal to "occurs at some
  offset". It also holds the fallback chain as a generic
  first-available-candidate function and the list of probes made.
- `paths.dfy` (module `Paths`): `os.path.basename` as the part after the
  last separator, and the output name. Proved: the output name does not
  depend on the directory part, and `/tmp/clip.mp4` gives
  `reencoded_clip.mp4`.
- `commands.dfy` (module `Commands`): the ffprobe query and the two ffmpeg
  argument lists. The bitrate argument is a token holding the exact kbps
  value. ffmpeg's left-to-right reading of options (a switch takes no value,
  any other option takes the next argument) is modelled, so the model can
  state which settings each pass carries, whatever the paths contain.
- `shrink.dfy` (module `Shrink`): the run of `main` as methods that build
  the trace.
  - A missing file prints "File does not exist." and issues nothing.
  - Otherwise the commands are, in order: the encoder probes, the duration
    query, then pass 1 and pass 2 with the chosen encoder and the computed
    bitrate.
  - A duration that does not parse ends the run before any pass, and so does
    a zero duration (Python's ZeroDivisionError).
  - Pass 2 is issued whatever pass 1 did: exit statuses are never inputs.

## Model

| member | source | states |
|---|---|---|
| Bitrate.VideoBitrateKbps | DiscordVideoShrink.py:22-34 | the video rate plus the two audio streams, over the duration, spends exactly the target size in bits; defined for any non-zero duration, unclamped |
| Bitrate.BudgetDeterminesBitrate | DiscordVideoShrink.py:26-34 | any rate that meets the size budget equals the computed bitrate (the budget fixes the result uniquely) |
| Bitrate.ClosedForm | DiscordVideoShrink.py:26-34 | the result is (s * 8 * 1024 * 1024 / d - 2 * (a * 1000)) / 1000, with the two-stream assumption built in |
| Bitrate.NegativeExactlyWhenAudioExceedsBudget | DiscordVideoShrink.py:33-34 | no clamping: the result is negative exactly when the size budget per second is below the audio budget, and zero exactly when they are equal |
| Bitrate.IncreasingInTargetSize | DiscordVideoShrink.py:33 | for a positive duration, a larger target size gives a strictly larger bitrate |
| Bitrate.DecreasingInAudioBitrate | DiscordVideoShrink.py:27-33 | a larger per-stream audio bitrate gives a strictly smaller video bitrate |
| Bitrate.DecreasingInDuration | DiscordVideoShrink.py:33 | for a positive target, a longer clip gets a strictly smaller bitrate |
| Bitrate.OneMinuteClip | DiscordVideoShrink.py:76-78 | with 24.5 MB and 192 kbps a 60-second clip gets exactly 5702528/1875 kbps |
| Bitrate.DegenerateTargetIsNegative | DiscordVideoShrink.py:33-34 | a 0.001 MB target over 100 s at 192 kbps yields a negative bitrate, returned as is |
| Encoders.ContainsFromIff | DiscordVideoShrink.py:9 | the substring search from offset i succeeds exactly when the name occurs at some offset at or after i |
| Encoders.ContainsFrom | DiscordVideoShrink.py:9 | no contract: the left-to-right scan of offsets i, i + 1, ...; read through ContainsFromIff |
| Encoders.Contains | DiscordVideoShrink.py:9 | Python's `in` on strings holds exactly when the name occurs at some offset of the text (the empty name included) |
| Encoders.CheckEncoder | DiscordVideoShrink.py:4-9 | an encoder is reported available exactly when its name occurs somewhere in the codec listing |
| Encoders.FirstAvailable | DiscordVideoShrink.py:61-67 | the result is a reported candidate preceded only by unreported ones, or the fallback when no candidate is reported |
| Encoders.ProbesUntil | DiscordVideoShrink.py:61-67 | the probes made are a prefix of the preference order that starts with the first candidate; every probe but the last failed; the last succeeded unless every candidate was probed |
| Encoders.ChosenEncoder | DiscordVideoShrink.py:61-67 | no contract: the first available of libx264, libx265 with mpeg4 as fallback; read through FirstAvailable and ChosenEncoderCases |
| Encoders.ChosenEncoderCases | DiscordVideoShrink.py:61-67 | the encoder is one of libx264, libx265, mpeg4: libx264 iff reported, libx265 iff libx264 is not and libx265 is, mpeg4 iff neither is |
| Encoders.ProbesShortCircuit | DiscordVideoShrink.py:62-65 | when libx264 is reported only one probe is made; otherwise libx264 then libx265 are probed; mpeg4 is never probed |
| Paths.Basename | DiscordVideoShrink.py:69 | the basename is the longest separator-free suffix of the path: a suffix, free of separators, and either the whole path or preceded by a separator |
| Paths.BasenameOfPlainName | DiscordVideoShrink.py:69 | a path without separators is its own basename |
| Paths.BasenameIgnoresDirectory | DiscordVideoShrink.py:69 | whatever precedes the last separator does not affect the basename |
| Paths.OutputName | DiscordVideoShrink.py:69 | the output name is "reencoded_" followed by the longest separator-free suffix of the input path |
| Paths.OutputNameIgnoresDirectory | DiscordVideoShrink.py:69 | the same file name in two directories yields the same output name |
| Paths.ClipExample | DiscordVideoShrink.py:69 | "/tmp/clip.mp4" gives "reencoded_clip.mp4" |
| Commands.CodecsArgv | DiscordVideoShrink.py:8 | no contract: the two arguments `ffmpeg -codecs` as written; every probe issues it (Shrink.SelectEncoder) |
| Commands.LengthArgv | DiscordVideoShrink.py:15-16 | the duration query runs ffprobe, asks for format=duration, and passes the input path last |
| Commands.NullSink | DiscordVideoShrink.py:44 | pass 1 writes to "NUL" exactly when os.name is "nt" and to "/dev/null" otherwise |
| Commands.Pass1Argv | DiscordVideoShrink.py:42-45 | no contract: the fourteen arguments of pass 1 as written; read through Pass1Settings |
| Commands.Pass2Argv | DiscordVideoShrink.py:48-51 | no contract: the fourteen arguments of pass 2 as written; read through Pass2Settings |
| Commands.Pass1Settings | DiscordVideoShrink.py:42-45 | as ffmpeg reads pass 1: the given input, encoder and bitrate, pass 1, overwrite, no audio, format null, no audio codec, written to the null sink |
| Commands.Pass2Settings | DiscordVideoShrink.py:48-51 | as ffmpeg reads pass 2: the given input, encoder and bitrate, pass 2, audio copied, stream 0 mapped, neither -y nor -an, output file last |
| Commands.PassesShareSettings | DiscordVideoShrink.py:42-51 | ffmpeg reads the same input, encoder and bitrate from both passes |
| Shrink.ProbeCommands | DiscordVideoShrink.py:8 | no contract: one codec-listing command per probed encoder; read through Shrink.ChainProbes |
| Shrink.ChainProbes | DiscordVideoShrink.py:61-65 | the chain issues exactly one listing when libx264 is reported and exactly two otherwise, each of them `ffmpeg -codecs` |
| Shrink.SelectEncoder | DiscordVideoShrink.py:60-67 | the encoder is the first reported of libx264, libx265, else mpeg4; the whole trace is pinned in order: each notice follows the probe that revealed the miss; so the commands issued are exactly the codec-listing probes up to the first success, and a notice is printed for each rejected candidate |
| Shrink.TwoPasses | DiscordVideoShrink.py:42-51 | no contract: the two pass commands, pass 1 first; read through TwoPassesAgree |
| Shrink.TwoPassesAgree | DiscordVideoShrink.py:41-51 | both pass records are commands; ffmpeg reads the given input, encoder and bitrate from both; pass 1 drops audio (-an), sets no audio codec and ends with the null sink; pass 2 copies audio and ends with the output file |
| Shrink.ReencodeVideoTwoPass | DiscordVideoShrink.py:36-51 | issues pass 1 and then pass 2, with nothing in between and no condition on pass 1 |
| Shrink.ProbeAndEncode | DiscordVideoShrink.py:71-83 | the duration query comes first; an unparsable or zero duration ends the run with the matching exception and no pass; otherwise both passes follow with the computed bitrate, and the run ends naming the output |
| Shrink.Run | DiscordVideoShrink.py:53-83 | a missing file prints one message and issues nothing; otherwise the commands are the encoder probes, the duration query, then both passes with the chosen encoder, the computed bitrate and the output name "reencoded_" + basename |

## Left out

- Running the external processes (`subprocess.run`), what ffmpeg and ffprobe do, and their exit statuses. The model records each command issued. The source never reads a status, so none is an input.
- A missing ffmpeg or ffprobe binary, which makes `subprocess.run` raise. The model assumes both tools run.
- Decoding the codec listing from bytes (`.decode()`). The listing is given as text.
- The listing is re-queried for each probe. The model uses one text for both probes, as if ffmpeg answers the same way each time.
- Parsing ffprobe's output with `float()`, and stderr merged into that output. The parsed value is an input; `None` stands for `float()` raising.
- IEEE-754 rounding. The bitrate is computed over exact reals.
- Formatting floats as text: `f'{kbps}k'` and the "Video length" and "Calculated video bitrate" prints. The exact value is kept instead, in `Arg.Kbps`, `SayLength` and `SayBitrate`.
- `input()` with its prompt, `.strip()`, `os.path.isfile` and console output as I/O. The path and the existence flag are parameters; printed lines are trace events.
- Platform details of `os.path.basename` (Windows drive letters, two separators). The model splits on one separator, given as a parameter.
- The two-pass statistics files ffmpeg writes to the working directory. ffmpeg manages them; the script never names them.
- Commands.LengthArgv: states the program, the queried entry and the input position, not every one of its eight arguments. The whole list is its body.
