/**
 * Encoder availability and the fallback chain of DiscordVideoShrink.py.
 * The text `ffmpeg -codecs` prints is an input; an encoder counts as
 * available when its name occurs in that text as a substring, which is what
 * Python's `in` on two strings tests.
 */
module Encoders {

  /** The needle occurs in the text starting at offset `i`. */
  predicate OccursAt(text: string, needle: string, i: int)
  {
    0 <= i <= |text| - |needle| && text[i..i + |needle|] == needle
  }

  /** Search for the needle at offsets `i`, `i + 1`, ... of the text. */
  function ContainsFrom(text: string, needle: string, i: nat): bool
    decreases |text| - i
  {
    if i + |needle| > |text| then false
    else if text[i..i + |needle|] == needle then true
    else ContainsFrom(text, needle, i + 1)
  }

  /** Python's `needle in text` for strings: the needle occurs at some offset. */
  function Contains(text: string, needle: string): (found: bool)
    ensures found <==> exists i :: OccursAt(text, needle, i)
  {
    ContainsFromIff(text, needle, 0);
    ContainsFrom(text, needle, 0)
  }

  /** The search from offset `i` succeeds exactly when the needle occurs at or after `i`. */
  lemma {:induction false} ContainsFromIff(text: string, needle: string, i: nat)
    ensures ContainsFrom(text, needle, i) <==> exists j :: i <= j && OccursAt(text, needle, j)
    decreases |text| - i
  {
    if i + |needle| > |text| {
    } else if text[i..i + |needle|] == needle {
      assert OccursAt(text, needle, i);
    } else {
      ContainsFromIff(text, needle, i + 1);
      if !ContainsFrom(text, needle, i) {
        forall j | i <= j && OccursAt(text, needle, j)
          ensures i + 1 <= j
        {
        }
      }
    }
  }

  /** check_encoder: is `name` listed in the `ffmpeg -codecs` text? */
  function CheckEncoder(codecs: string, name: string): (available: bool)
    ensures available <==> exists i :: OccursAt(codecs, name, i)
  {
    Contains(codecs, name)
  }

  /** The encoders `main` probes, in the order it probes them. */
  const Preference: seq<string> := ["libx264", "libx265"]

  /** The encoder `main` falls back to without probing it. */
  const Fallback: string := "mpeg4"

  /**
   * The first candidate the codec listing reports, or the fallback when none
   * is reported: the result is a reported candidate preceded only by
   * unreported ones, or the fallback with every candidate unreported.
   */
  function FirstAvailable(candidates: seq<string>, codecs: string, fallback: string): (e: string)
    ensures || (e == fallback && forall k :: 0 <= k < |candidates| ==> !CheckEncoder(codecs, candidates[k]))
            || exists i :: 0 <= i < |candidates| && e == candidates[i] && CheckEncoder(codecs, candidates[i])
                 && forall k :: 0 <= k < i ==> !CheckEncoder(codecs, candidates[k])
    decreases |candidates|
  {
    if candidates == [] then fallback
    else if CheckEncoder(codecs, candidates[0]) then candidates[0]
    else
      var rest := FirstAvailable(candidates[1..], codecs, fallback);
      assert forall k :: 1 <= k < |candidates| ==> candidates[k] == candidates[1..][k - 1];
      rest
  }

  /**
   * The candidates probed while looking for the first available one: an
   * unbroken prefix of the candidates in which every probe but the last
   * failed, and the last one succeeded unless every candidate was probed.
   */
  function ProbesUntil(candidates: seq<string>, codecs: string): (probed: seq<string>)
    ensures probed <= candidates
    ensures forall k :: 0 <= k < |probed| - 1 ==> !CheckEncoder(codecs, probed[k])
    ensures |probed| < |candidates| ==> probed != [] && CheckEncoder(codecs, probed[|probed| - 1])
    ensures candidates != [] ==> probed != []
    decreases |candidates|
  {
    if candidates == [] then []
    else if CheckEncoder(codecs, candidates[0]) then [candidates[0]]
    else [candidates[0]] + ProbesUntil(candidates[1..], codecs)
  }

  /** The encoder `main` settles on, as a function of the codec listing. */
  function ChosenEncoder(codecs: string): string
  {
    FirstAvailable(Preference, codecs, Fallback)
  }

  /**
   * The chosen encoder is one of libx264, libx265, mpeg4: libx264 when it is
   * reported, else libx265 when it is reported, else mpeg4.
   */
  lemma ChosenEncoderCases(codecs: string)
    ensures ChosenEncoder(codecs) in {"libx264", "libx265", "mpeg4"}
    ensures ChosenEncoder(codecs) == "libx264" <==> CheckEncoder(codecs, "libx264")
    ensures ChosenEncoder(codecs) == "libx265" <==>
              !CheckEncoder(codecs, "libx264") && CheckEncoder(codecs, "libx265")
    ensures ChosenEncoder(codecs) == "mpeg4" <==>
              !CheckEncoder(codecs, "libx264") && !CheckEncoder(codecs, "libx265")
  {
    assert Preference[1..] == ["libx265"];
    assert Preference[1..][1..] == [];
  }

  /**
   * Probing stops at the first success: one probe when libx264 is reported,
   * otherwise libx264 then libx265; mpeg4 is never probed.
   */
  lemma ProbesShortCircuit(codecs: string)
    ensures CheckEncoder(codecs, "libx264") ==> ProbesUntil(Preference, codecs) == ["libx264"]
    ensures !CheckEncoder(codecs, "libx264") ==> ProbesUntil(Preference, codecs) == ["libx264", "libx265"]
    ensures Fallback !in ProbesUntil(Preference, codecs)
  {
    assert Preference[1..] == ["libx265"];
    assert Preference[1..][1..] == [];
  }
}
