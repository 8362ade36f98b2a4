/**
 * The three subtitle writers of the per-file loop: SubRip (numbered cues),
 * WebVTT (a header, then cues without numbers) and plain text. Each is a
 * pure function giving the exact text of the file, and a method that builds
 * the file with the same sequence of `write` calls as the source and is
 * proved to produce that text.
 */
module Subtitles {
  import opened Text
  import opened Timestamp

  /** One entry of the engine's `result["segments"]`. */
  datatype Segment = Segment(start: Seconds, end: Seconds, text: string)

  /** What a successful transcription returns: the segments and the full
      text (`result["text"]`). */
  datatype Transcript = Transcript(segments: seq<Segment>, text: string)

  /** The number line of SubRip cue `index`: `f"{i}\n"`. */
  function NumberLine(index: nat): string {
    Digits(index) + "\n"
  }

  /** The timing line of a cue, its two offsets rendered by `stamp`. */
  function TimingLine(stamp: Seconds -> string, seg: Segment): string {
    stamp(seg.start) + " --> " + stamp(seg.end) + "\n"
  }

  /** The text of a cue, stripped, then a blank line. */
  function TextLines(seg: Segment): string {
    Strip(seg.text) + "\n\n"
  }

  /** A numbered cue: the number line, the timing line and the text. The
      renderer of the timestamps is a parameter, so that the loop writing
      the cues is proved once for any renderer. */
  function NumberedCue(stamp: Seconds -> string, index: nat, seg: Segment): string {
    NumberLine(index) + TimingLine(stamp, seg) + TextLines(seg)
  }

  /** An unnumbered cue: the timing line and the text. */
  function PlainCue(stamp: Seconds -> string, seg: Segment): string {
    TimingLine(stamp, seg) + TextLines(seg)
  }

  /** The numbered cues of `segs` in segment order: segment `k` (0-based)
      gets number `k + 1`. */
  function NumberedCues(stamp: Seconds -> string, segs: seq<Segment>): string
    decreases |segs|
  {
    if segs == [] then []
    else NumberedCues(stamp, segs[..|segs| - 1]) + NumberedCue(stamp, |segs|, segs[|segs| - 1])
  }

  /** The unnumbered cues of `segs` in segment order. */
  function PlainCues(stamp: Seconds -> string, segs: seq<Segment>): string
    decreases |segs|
  {
    if segs == [] then [] else PlainCues(stamp, segs[..|segs| - 1]) + PlainCue(stamp, segs[|segs| - 1])
  }

  /** The text of a `.srt` file: the SubRip cues of the segments. */
  function Srt(t: Transcript): string {
    NumberedCues(FormatTimestamp, t.segments)
  }

  const VttHeader: string := "WEBVTT\n\n"

  /** The text of a `.vtt` file: the header, then the WebVTT cues. */
  function Vtt(t: Transcript): string {
    VttHeader + PlainCues(FormatTimestampVtt, t.segments)
  }

  /** The text of a `.txt` file: the full text, stripped, and a newline. */
  function Txt(t: Transcript): string {
    Strip(t.text) + "\n"
  }

  /** The branch on `output_format`: "srt", "vtt", "txt", and a fallback that
      writes SubRip. */
  function Render(format: string, t: Transcript): string {
    if format == "srt" then Srt(t)
    else if format == "vtt" then Vtt(t)
    else if format == "txt" then Txt(t)
    else Srt(t)
  }

  /** Cues are written in segment order and never revised: the cues of the
      first `i` segments are a prefix of the cues of all of them. */
  lemma {:induction false} NumberedCuesPrefix(stamp: Seconds -> string, segs: seq<Segment>, i: nat)
    requires i <= |segs|
    ensures NumberedCues(stamp, segs[..i]) <= NumberedCues(stamp, segs)
    decreases |segs|
  {
    if i < |segs| {
      var init := segs[..|segs| - 1];
      NumberedCuesPrefix(stamp, init, i);
      assert init[..i] == segs[..i];
      PrefixOfLonger(NumberedCues(stamp, segs[..i]), NumberedCues(stamp, init), NumberedCue(stamp, |segs|, segs[|segs| - 1]));
    } else {
      assert segs[..i] == segs;
    }
  }

  lemma {:induction false} PlainCuesPrefix(stamp: Seconds -> string, segs: seq<Segment>, i: nat)
    requires i <= |segs|
    ensures PlainCues(stamp, segs[..i]) <= PlainCues(stamp, segs)
    decreases |segs|
  {
    if i < |segs| {
      var init := segs[..|segs| - 1];
      PlainCuesPrefix(stamp, init, i);
      assert init[..i] == segs[..i];
      PrefixOfLonger(PlainCues(stamp, segs[..i]), PlainCues(stamp, init), PlainCue(stamp, segs[|segs| - 1]));
    } else {
      assert segs[..i] == segs;
    }
  }

  lemma PrefixOfLonger(a: string, b: string, x: string)
    requires a <= b
    ensures a <= b + x
  {
  }

  /** One more segment adds its cue, numbered `k + 1`, at the end. */
  lemma NumberedCuesSnoc(stamp: Seconds -> string, segs: seq<Segment>, k: nat)
    requires k < |segs|
    ensures NumberedCues(stamp, segs[..k + 1]) == NumberedCues(stamp, segs[..k]) + NumberedCue(stamp, k + 1, segs[k])
  {
    assert segs[..k + 1][..k] == segs[..k];
  }

  lemma PlainCuesSnoc(stamp: Seconds -> string, segs: seq<Segment>, k: nat)
    requires k < |segs|
    ensures PlainCues(stamp, segs[..k + 1]) == PlainCues(stamp, segs[..k]) + PlainCue(stamp, segs[k])
  {
    assert segs[..k + 1][..k] == segs[..k];
  }

  /** Segment `k` (0-based) becomes cue number `k + 1`, right after the
      cues of the segments before it. */
  lemma NumberedCueOfSegment(stamp: Seconds -> string, segs: seq<Segment>, k: nat)
    requires k < |segs|
    ensures NumberedCues(stamp, segs[..k]) + NumberedCue(stamp, k + 1, segs[k]) <= NumberedCues(stamp, segs)
  {
    NumberedCuesSnoc(stamp, segs, k);
    NumberedCuesPrefix(stamp, segs, k + 1);
  }

  /** The cue of segment `k` comes right after the cues of the segments
      before it. */
  lemma PlainCueOfSegment(stamp: Seconds -> string, segs: seq<Segment>, k: nat)
    requires k < |segs|
    ensures PlainCues(stamp, segs[..k]) + PlainCue(stamp, segs[k]) <= PlainCues(stamp, segs)
  {
    PlainCuesSnoc(stamp, segs, k);
    PlainCuesPrefix(stamp, segs, k + 1);
  }

  /** The text file strips back to the stripped full text: the only thing
      added is the final newline. */
  lemma TxtShape(t: Transcript)
    ensures var r := Txt(t);
      && |r| >= 1 && r[|r| - 1] == '\n' && r[..|r| - 1] == Strip(t.text)
      && Strip(r) == Strip(t.text)
  {
    StripEnds(t.text);
    StripNewline(Strip(t.text));
  }

  /** The WebVTT file always starts with its header, even with no
      segments; a SubRip file with no segments is empty. */
  lemma EmptyTranscript(text: string)
    ensures Vtt(Transcript([], text)) == "WEBVTT\n\n"
    ensures Srt(Transcript([], text)) == ""
  {
  }

  /** Every format other than "vtt" and "txt" is written as SubRip. */
  lemma FallbackIsSrt(format: string, t: Transcript)
    requires format != "vtt" && format != "txt"
    ensures Render(format, t) == Render("srt", t)
  {
  }

  /** An open output file; `write` appends. */
  class OutFile {
    var contents: string

    /** `open(path, "w")`: a new, empty file. */
    constructor ()
      ensures contents == []
    {
      contents := [];
    }

    method Write(s: string)
      modifies this
      ensures contents == old(contents) + s
    {
      contents := contents + s;
    }
  }

  lemma Assoc(a: string, b: string, c: string)
    ensures a + b + c == a + (b + c)
  {
  }

  /** The loop of the SubRip branch: three writes per segment, numbering
      from 1, the timestamps rendered by `stamp`. */
  method WriteNumberedCues(f: OutFile, segs: seq<Segment>, stamp: Seconds -> string)
    modifies f
    ensures f.contents == old(f.contents) + NumberedCues(stamp, segs)
  {
    var i := 0;
    while i < |segs|
      invariant 0 <= i <= |segs|
      invariant f.contents == old(f.contents) + NumberedCues(stamp, segs[..i])
    {
      var seg := segs[i];
      var number := NumberLine(i + 1);
      var timing := stamp(seg.start) + " --> " + stamp(seg.end) + "\n";
      var text := Strip(seg.text) + "\n\n";
      f.Write(number);
      f.Write(timing);
      f.Write(text);
      NumberedCuesSnoc(stamp, segs, i);
      AppendCue(old(f.contents), NumberedCues(stamp, segs[..i]), number, timing, text);
      i := i + 1;
    }
    assert segs[..i] == segs;
  }

  /** The loop of the WebVTT branch: two writes per segment. */
  method WritePlainCues(f: OutFile, segs: seq<Segment>, stamp: Seconds -> string)
    modifies f
    ensures f.contents == old(f.contents) + PlainCues(stamp, segs)
  {
    var i := 0;
    while i < |segs|
      invariant 0 <= i <= |segs|
      invariant f.contents == old(f.contents) + PlainCues(stamp, segs[..i])
    {
      var seg := segs[i];
      var timing := stamp(seg.start) + " --> " + stamp(seg.end) + "\n";
      var text := Strip(seg.text) + "\n\n";
      f.Write(timing);
      f.Write(text);
      PlainCuesSnoc(stamp, segs, i);
      AppendTwo(old(f.contents), PlainCues(stamp, segs[..i]), timing, text);
      i := i + 1;
    }
    assert segs[..i] == segs;
  }

  /** Three writes after `cues`, as one cue appended to them. */
  lemma AppendCue(x: string, cues: string, a: string, b: string, c: string)
    ensures x + cues + a + b + c == x + (cues + (a + b + c))
  {
  }

  /** Two writes after `cues`, as one cue appended to them. */
  lemma AppendTwo(x: string, cues: string, a: string, b: string)
    ensures x + cues + a + b == x + (cues + (a + b))
  {
  }

  /** The SubRip branch. */
  method WriteSrt(f: OutFile, t: Transcript)
    modifies f
    ensures f.contents == old(f.contents) + Srt(t)
  {
    WriteNumberedCues(f, t.segments, FormatTimestamp);
  }

  /** The WebVTT branch: the header, then the cues. */
  method WriteVtt(f: OutFile, t: Transcript)
    modifies f
    ensures f.contents == old(f.contents) + Vtt(t)
  {
    f.Write(VttHeader);
    WritePlainCues(f, t.segments, FormatTimestampVtt);
    Assoc(old(f.contents), VttHeader, PlainCues(FormatTimestampVtt, t.segments));
  }

  /** Opens a new file, writes the transcript in `format` into it, and
      returns it: the file holds exactly `Render(format, t)`. The fallback
      branch repeats the SubRip loop, as the source does. */
  method WriteOutput(format: string, t: Transcript) returns (f: OutFile)
    ensures fresh(f)
    ensures f.contents == Render(format, t)
  {
    f := new OutFile();
    if format == "srt" {
      WriteSrt(f, t);
      assert f.contents == Srt(t);
    } else if format == "vtt" {
      WriteVtt(f, t);
      assert f.contents == Vtt(t);
    } else if format == "txt" {
      f.Write(Strip(t.text) + "\n");
    } else {
      WriteSrt(f, t);
      assert f.contents == Srt(t);
    }
  }
}
