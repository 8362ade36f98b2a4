/**
 * The per-file loop of `main`: list the audio files, return early when there
 * are none, load the model once, then for each file ask the engine for a
 * transcript, skip the file when the engine fails, and otherwise write the
 * transcript in the chosen format to a path built from the file's name.
 *
 * The engine is an oracle: a function from the model name, the audio path
 * and the language option to an outcome. The output directory is a map from
 * path to file contents, so a later write to the same path replaces the
 * earlier one. Paths follow the POSIX rules of `os.path`.
 */
module Batch {
  import opened Wrappers
  import opened Text
  import opened Subtitles
  import opened Discovery
  import opened Languages
  import opened Choices

  // ----- os.path -----

  /** `s.rfind(c)`: the index of the last `c` in `s`, or -1. */
  function RFind(s: string, c: char): (i: int)
    ensures -1 <= i < |s|
    ensures i >= 0 ==> s[i] == c
    ensures forall j :: i < j < |s| ==> s[j] != c
    decreases |s|
  {
    if s == [] then -1
    else if s[|s| - 1] == c then |s| - 1
    else RFind(s[..|s| - 1], c)
  }

  predicate AllDots(s: string) {
    forall i :: 0 <= i < |s| ==> s[i] == '.'
  }

  /** `os.path.splitext(p)[0]`: `p` without its last extension. The
      extension starts at the last "." after the last "/", and only if a
      character other than "." comes before that dot in the last
      component, so ".bashrc" and "..mp3" have none. */
  function Root(p: string): string {
    var sep := RFind(p, '/');
    var dot := RFind(p, '.');
    if dot > sep && !AllDots(p[sep + 1..dot]) then p[..dot] else p
  }

  /** `os.path.basename(p)`: what follows the last "/". */
  function Basename(p: string): (b: string)
    ensures '/' !in b
    ensures EndsWith(p, b)
    ensures |b| < |p| ==> p[|p| - |b| - 1] == '/'
  {
    p[RFind(p, '/') + 1..]
  }

  /** `os.path.join(a, b)` with two parts. */
  function Join(a: string, b: string): string {
    if |b| > 0 && b[0] == '/' then b
    else if a == [] || a[|a| - 1] == '/' then a + b
    else a + "/" + b
  }

  /** The extension of the file written for `format`; the fallback branch
      writes ".srt". */
  function Extension(format: string): string {
    if format == "vtt" then ".vtt"
    else if format == "txt" then ".txt"
    else ".srt"
  }

  /** `out_base + ext` with
      `out_base = os.path.join(output_dir, os.path.basename(os.path.splitext(audio_file)[0]))`. */
  function OutputPath(outputDir: string, format: string, name: string): string {
    Join(outputDir, Basename(Root(name))) + Extension(format)
  }

  // ----- the engine and the settings -----

  datatype Outcome = Transcribed(transcript: Transcript) | Failed(message: string)

  /** `model.transcribe(audio_path, **options)` of the model loaded under a
      name: a transcript, or the exception it raised. */
  type Engine = (string, string, Option<string>) -> Outcome

  /** The answers gathered by the prompts. */
  datatype Settings = Settings(
    inputDir: string,
    modelName: string,
    language: Option<string>,
    format: string,
    outputDir: string)

  /** whisper.py: the model from the model menu, the language from the
      resolver, the format from the first answer to the format menu that is
      a menu number (the prompt is repeated until there is one). */
  function WhisperSettings(inputDir: string, modelAnswer: string, languageAnswer: string,
                           formatAnswers: seq<string>, outputDir: string): Settings
    requires FirstFormat(formatAnswers).Some?
  {
    Settings(inputDir, ModelName(modelAnswer), Resolve(languageAnswer).language,
             FirstFormat(formatAnswers).value, outputDir)
  }

  /** main.py: the same, with `language = None`. */
  function MainSettings(inputDir: string, modelAnswer: string, formatAnswers: seq<string>, outputDir: string): Settings
    requires FirstFormat(formatAnswers).Some?
  {
    Settings(inputDir, ModelName(modelAnswer), None, FirstFormat(formatAnswers).value, outputDir)
  }

  /** `options = {}; if language: options["language"] = language`: the
      language is passed only when it is there and not empty. */
  function LanguageOption(language: Option<string>): (option: Option<string>)
    ensures option.Some? <==> language.Some? && language.value != []
    ensures option.Some? ==> option == language
  {
    if language.Some? && language.value != [] then language else None
  }

  /** One call of the engine. */
  datatype Request = Request(model: string, path: string, language: Option<string>)

  function RequestFor(s: Settings, name: string): Request {
    Request(s.modelName, Join(s.inputDir, name), LanguageOption(s.language))
  }

  function Transcribe(s: Settings, engine: Engine, name: string): Outcome {
    var r := RequestFor(s, name);
    engine(r.model, r.path, r.language)
  }

  // ----- what the loop does -----

  /** The engine calls for `files`, in order: one per file, failed or not. */
  function Requests(s: Settings, files: seq<string>): seq<Request>
    decreases |files|
  {
    if files == [] then []
    else Requests(s, files[..|files| - 1]) + [RequestFor(s, files[|files| - 1])]
  }

  /** What processing one file does to the output directory: nothing, or
      put some contents at some path. */
  datatype Effect = Skip | Put(path: string, contents: string)

  /** A failed file is skipped; a transcribed one puts its rendered
      transcript at its output path. */
  function EffectOf(s: Settings, engine: Engine, name: string): Effect {
    match Transcribe(s, engine, name)
    case Failed(_) => Skip
    case Transcribed(t) => Put(OutputPath(s.outputDir, s.format, name), Render(s.format, t))
  }

  lemma EffectOfSpec(s: Settings, engine: Engine, name: string)
    ensures Succeeds(s, engine, name) ==>
      EffectOf(s, engine, name) == Put(OutputPath(s.outputDir, s.format, name), Render(s.format, Transcribe(s, engine, name).transcript))
    ensures !Succeeds(s, engine, name) ==> EffectOf(s, engine, name) == Skip
  {
  }

  /** `EffectOf` as a function of the file name alone. */
  function Step(s: Settings, engine: Engine): string -> Effect {
    name => EffectOf(s, engine, name)
  }

  /** The effect of each file, in listing order. */
  function Effects(effect: string -> Effect, files: seq<string>): seq<Effect>
    decreases |files|
  {
    if files == [] then []
    else Effects(effect, files[..|files| - 1]) + [effect(files[|files| - 1])]
  }

  /** The output directory after `effects`, in order, starting from
      `outputs`: a later put to a path replaces an earlier one. */
  function Apply(effects: seq<Effect>, outputs: map<string, string>): map<string, string>
    decreases |effects|
  {
    if effects == [] then outputs
    else
      var before := Apply(effects[..|effects| - 1], outputs);
      match effects[|effects| - 1]
      case Skip => before
      case Put(path, contents) => before[path := contents]
  }

  /** The output directory after processing `files`. */
  function Written(s: Settings, engine: Engine, files: seq<string>, outputs: map<string, string>): map<string, string> {
    Apply(Effects(Step(s, engine), files), outputs)
  }

  predicate Succeeds(s: Settings, engine: Engine, name: string) {
    Transcribe(s, engine, name).Transcribed?
  }

  /** The state of one run of the program. */
  class Transcriber {
    /** The output directory: path to file contents. */
    var outputs: map<string, string>
    /** The models loaded so far, one entry per `whisper.load_model` call. */
    var loads: seq<string>
    /** The engine calls made so far. */
    var requests: seq<Request>

    /** A run that has loaded nothing and called nothing, over an output
        directory that already holds `existing`. */
    constructor (existing: map<string, string>)
      ensures outputs == existing && loads == [] && requests == []
    {
      outputs := existing;
      loads := [];
      requests := [];
    }

    /** From `audio_files = list_audio_files(input_dir)` to the end of the
        loop. With no audio files it returns before loading the model and
        writes nothing; otherwise it loads the model once, calls the engine once
        per file in listing order, and leaves the output directory as
        `Written` says. */
    method Run(s: Settings, listing: seq<string>, engine: Engine)
      modifies this
      ensures var files := Filter(listing, AudioExtensions);
        && (files == [] ==>
              loads == old(loads) && requests == old(requests) && outputs == old(outputs))
        && (files != [] ==>
              && loads == old(loads) + [s.modelName]
              && requests == old(requests) + Requests(s, files)
              && outputs == Written(s, engine, files, old(outputs)))
    {
      var audioFiles := ListAudioFiles(listing, None);
      if audioFiles == [] {
        return;
      }
      loads := loads + [s.modelName];
      var i := 0;
      while i < |audioFiles|
        invariant 0 <= i <= |audioFiles|
        invariant loads == old(loads) + [s.modelName]
        invariant requests == old(requests) + Requests(s, audioFiles[..i])
        invariant outputs == Apply(Effects(Step(s, engine), audioFiles[..i]), old(outputs))
      {
        var audioFile := audioFiles[i];
        var language := LanguageOption(s.language);
        var audioPath := Join(s.inputDir, audioFile);
        ghost var called := Requests(s, audioFiles[..i]);
        requests := requests + [Request(s.modelName, audioPath, language)];
        RequestsSnoc(s, audioFiles, i);
        AppendRequest(old(requests), called, Request(s.modelName, audioPath, language));
        assert requests == old(requests) + Requests(s, audioFiles[..i + 1]);
        var result := engine(s.modelName, audioPath, language);
        ghost var done := Effects(Step(s, engine), audioFiles[..i]);
        EffectsSnoc(Step(s, engine), audioFiles, i);
        assert result == Transcribe(s, engine, audioFile);
        if result.Failed? {
          ApplySnoc(done, Skip, old(outputs));
          i := i + 1;
          continue;
        }
        var outPath := OutputPath(s.outputDir, s.format, audioFile);
        var f := WriteOutput(s.format, result.transcript);
        outputs := outputs[outPath := f.contents];
        ApplySnoc(done, Put(outPath, f.contents), old(outputs));
        i := i + 1;
      }
      assert audioFiles[..i] == audioFiles;
    }
  }

  lemma RequestsSnoc(s: Settings, files: seq<string>, i: nat)
    requires i < |files|
    ensures Requests(s, files[..i + 1]) == Requests(s, files[..i]) + [RequestFor(s, files[i])]
  {
    assert files[..i + 1][..i] == files[..i];
  }

  lemma AppendRequest(a: seq<Request>, b: seq<Request>, r: Request)
    ensures a + b + [r] == a + (b + [r])
  {
  }

  lemma EffectsSnoc(effect: string -> Effect, files: seq<string>, i: nat)
    requires i < |files|
    ensures Effects(effect, files[..i + 1]) == Effects(effect, files[..i]) + [effect(files[i])]
  {
    assert files[..i + 1][..i] == files[..i];
  }

  lemma ApplySnoc(effects: seq<Effect>, e: Effect, outputs: map<string, string>)
    ensures Apply(effects + [e], outputs) ==
      match e
      case Skip => Apply(effects, outputs)
      case Put(path, contents) => Apply(effects, outputs)[path := contents]
  {
    assert (effects + [e])[..|effects|] == effects;
  }

  // ----- properties of the loop -----

  /** Applying two lists of effects one after the other is applying their
      concatenation. */
  lemma {:induction false} ApplyAppend(a: seq<Effect>, b: seq<Effect>, outputs: map<string, string>)
    ensures Apply(a + b, outputs) == Apply(b, Apply(a, outputs))
    decreases |b|
  {
    if b == [] {
      assert a + b == a;
    } else {
      var init := b[..|b| - 1];
      assert (a + b)[..|a + b| - 1] == a + init;
      ApplyAppend(a, init, outputs);
    }
  }

  /** The paths present afterwards are those present before and those some
      effect puts. */
  lemma {:induction false} ApplyKeys(effects: seq<Effect>, outputs: map<string, string>, p: string)
    ensures p in Apply(effects, outputs) <==>
      p in outputs || exists k :: 0 <= k < |effects| && effects[k].Put? && effects[k].path == p
    decreases |effects|
  {
    if effects != [] {
      var init := effects[..|effects| - 1];
      ApplyKeys(init, outputs, p);
      if exists k :: 0 <= k < |init| && init[k].Put? && init[k].path == p {
        var k :| 0 <= k < |init| && init[k].Put? && init[k].path == p;
        assert effects[k] == init[k];
      }
      if exists k :: 0 <= k < |effects| && effects[k].Put? && effects[k].path == p {
        var k :| 0 <= k < |effects| && effects[k].Put? && effects[k].path == p;
        if k < |init| {
          assert init[k] == effects[k];
        }
      }
    }
  }

  /** A path no effect puts keeps its earlier contents. */
  lemma {:induction false} ApplyElsewhere(effects: seq<Effect>, outputs: map<string, string>, p: string)
    requires forall k :: 0 <= k < |effects| && effects[k].Put? ==> effects[k].path != p
    ensures p in Apply(effects, outputs) <==> p in outputs
    ensures p in outputs ==> Apply(effects, outputs)[p] == outputs[p]
    decreases |effects|
  {
    if effects != [] {
      var init := effects[..|effects| - 1];
      forall k | 0 <= k < |init| && init[k].Put?
        ensures init[k].path != p
      {
        assert init[k] == effects[k];
      }
      ApplyElsewhere(init, outputs, p);
    }
  }

  /** The last put to a path decides its contents. */
  lemma {:induction false} ApplyLastPut(effects: seq<Effect>, outputs: map<string, string>, k: nat)
    requires k < |effects| && effects[k].Put?
    requires forall j :: k < j < |effects| && effects[j].Put? ==> effects[j].path != effects[k].path
    ensures effects[k].path in Apply(effects, outputs)
    ensures Apply(effects, outputs)[effects[k].path] == effects[k].contents
    decreases |effects|
  {
    var init := effects[..|effects| - 1];
    if k < |effects| - 1 {
      forall j | k < j < |init| && init[j].Put?
        ensures init[j].path != init[k].path
      {
        assert init[j] == effects[j];
      }
      assert init[k] == effects[k];
      ApplyLastPut(init, outputs, k);
    }
  }

  /** File `k` has effect `EffectOf` of that file, in listing order. */
  lemma {:induction false} EffectsSpec(effect: string -> Effect, files: seq<string>)
    ensures |Effects(effect, files)| == |files|
    ensures forall k :: 0 <= k < |files| ==> Effects(effect, files)[k] == effect(files[k])
    decreases |files|
  {
    if files != [] {
      var init := files[..|files| - 1];
      EffectsSpec(effect, init);
      forall k | 0 <= k < |files|
        ensures Effects(effect, files)[k] == effect(files[k])
      {
        if k < |init| {
          assert init[k] == files[k];
        }
      }
    }
  }

  lemma {:induction false} EffectsAppend(effect: string -> Effect, a: seq<string>, b: seq<string>)
    ensures Effects(effect, a + b) == Effects(effect, a) + Effects(effect, b)
    decreases |b|
  {
    if b == [] {
      assert a + b == a;
    } else {
      var init := b[..|b| - 1];
      assert (a + b)[..|a + b| - 1] == a + init;
      EffectsAppend(effect, a, init);
    }
  }

  /** A file whose transcription fails writes nothing, and the files before
      and after it are processed as if it were not there. */
  lemma SkipFailure(s: Settings, engine: Engine, before: seq<string>, name: string, after: seq<string>, outputs: map<string, string>)
    requires !Succeeds(s, engine, name)
    ensures Written(s, engine, before + [name] + after, outputs) == Written(s, engine, before + after, outputs)
  {
    var step := Step(s, engine);
    var eb, ea := Effects(step, before), Effects(step, after);
    EffectsAppend(step, before + [name], after);
    EffectsAppend(step, before, [name]);
    EffectsAppend(step, before, after);
    assert [name][..0] == [];
    assert step(name) == Skip;
    assert Effects(step, [name]) == [Skip];
    ApplyAppend(eb + [Skip], ea, outputs);
    ApplyAppend(eb, ea, outputs);
  }

  /** The paths in the output directory afterwards are those there before
      and the output paths of the files that were transcribed. */
  lemma WrittenKeys(s: Settings, engine: Engine, files: seq<string>, outputs: map<string, string>, p: string)
    ensures p in Written(s, engine, files, outputs) <==>
      p in outputs || exists k :: 0 <= k < |files| && Succeeds(s, engine, files[k]) && OutputPath(s.outputDir, s.format, files[k]) == p
  {
    var effects := Effects(Step(s, engine), files);
    EffectsSpec(Step(s, engine), files);
    ApplyKeys(effects, outputs, p);
    ghost var put := exists k :: 0 <= k < |effects| && effects[k].Put? && effects[k].path == p;
    ghost var written := exists k :: 0 <= k < |files| && Succeeds(s, engine, files[k]) && OutputPath(s.outputDir, s.format, files[k]) == p;
    if put {
      var k :| 0 <= k < |effects| && effects[k].Put? && effects[k].path == p;
      EffectOfSpec(s, engine, files[k]);
      assert Succeeds(s, engine, files[k]) && OutputPath(s.outputDir, s.format, files[k]) == p;
    }
    if written {
      var k :| 0 <= k < |files| && Succeeds(s, engine, files[k]) && OutputPath(s.outputDir, s.format, files[k]) == p;
      EffectOfSpec(s, engine, files[k]);
      assert effects[k].Put? && effects[k].path == p;
    }
    assert put <==> written;
  }

  /** A path no transcribed file writes to keeps its earlier contents. */
  lemma WrittenElsewhere(s: Settings, engine: Engine, files: seq<string>, outputs: map<string, string>, p: string)
    requires forall k :: 0 <= k < |files| && Succeeds(s, engine, files[k]) ==> OutputPath(s.outputDir, s.format, files[k]) != p
    ensures p in Written(s, engine, files, outputs) <==> p in outputs
    ensures p in outputs ==> Written(s, engine, files, outputs)[p] == outputs[p]
  {
    var effects := Effects(Step(s, engine), files);
    EffectsSpec(Step(s, engine), files);
    forall k | 0 <= k < |effects| && effects[k].Put?
      ensures effects[k].path != p
    {
      EffectOfSpec(s, engine, files[k]);
    }
    ApplyElsewhere(effects, outputs, p);
  }

  /** The last file transcribed to a path decides its contents: when no
      later file is transcribed to the same path, the file at that path
      holds file `k`'s transcript. */
  lemma LastWriterWins(s: Settings, engine: Engine, files: seq<string>, outputs: map<string, string>, k: nat)
    requires k < |files| && Succeeds(s, engine, files[k])
    requires forall j :: k < j < |files| && Succeeds(s, engine, files[j]) ==>
      OutputPath(s.outputDir, s.format, files[j]) != OutputPath(s.outputDir, s.format, files[k])
    ensures var p := OutputPath(s.outputDir, s.format, files[k]);
      p in Written(s, engine, files, outputs)
      && Written(s, engine, files, outputs)[p] == Render(s.format, Transcribe(s, engine, files[k]).transcript)
  {
    var effects := Effects(Step(s, engine), files);
    EffectsSpec(Step(s, engine), files);
    EffectOfSpec(s, engine, files[k]);
    forall j | k < j < |effects| && effects[j].Put?
      ensures effects[j].path != effects[k].path
    {
      EffectOfSpec(s, engine, files[j]);
    }
    ApplyLastPut(effects, outputs, k);
  }

  /** The engine is called once for every listed file, failed or not, each
      time with the loaded model and the same language option. */
  lemma {:induction false} RequestsSpec(s: Settings, files: seq<string>)
    ensures |Requests(s, files)| == |files|
    ensures forall k :: 0 <= k < |files| ==>
      Requests(s, files)[k] == Request(s.modelName, Join(s.inputDir, files[k]), LanguageOption(s.language))
    decreases |files|
  {
    if files != [] {
      var init := files[..|files| - 1];
      RequestsSpec(s, init);
      forall k | 0 <= k < |files|
        ensures Requests(s, files)[k] == Request(s.modelName, Join(s.inputDir, files[k]), LanguageOption(s.language))
      {
        if k < |init| {
          assert init[k] == files[k];
        }
      }
    }
  }

  /** main.py never passes a language: every engine call leaves the
      language to auto-detection. */
  lemma MainPassesNoLanguage(inputDir: string, modelAnswer: string, formatAnswers: seq<string>, outputDir: string, files: seq<string>)
    requires FirstFormat(formatAnswers).Some?
    ensures var requests := Requests(MainSettings(inputDir, modelAnswer, formatAnswers, outputDir), files);
      forall k :: 0 <= k < |requests| ==> requests[k].language == None
  {
    RequestsSpec(MainSettings(inputDir, modelAnswer, formatAnswers, outputDir), files);
  }

  /** whisper.py passes the resolved language exactly when the resolver
      found one: every code is two letters, so never empty. */
  lemma WhisperPassesResolved(inputDir: string, modelAnswer: string, languageAnswer: string,
                              formatAnswers: seq<string>, outputDir: string, files: seq<string>)
    requires FirstFormat(formatAnswers).Some?
    ensures var requests := Requests(WhisperSettings(inputDir, modelAnswer, languageAnswer, formatAnswers, outputDir), files);
      forall k :: 0 <= k < |requests| ==> requests[k].language == Resolve(languageAnswer).language
  {
    RequestsSpec(WhisperSettings(inputDir, modelAnswer, languageAnswer, formatAnswers, outputDir), files);
    MergedTableShape();
  }

  /** Both scripts write with "srt", "vtt" or "txt" and the matching
      extension, so neither ever takes the fallback branch. */
  lemma SettingsNeverFallBack(inputDir: string, modelAnswer: string, languageAnswer: string,
                              formatAnswers: seq<string>, outputDir: string)
    requires FirstFormat(formatAnswers).Some?
    ensures var w := WhisperSettings(inputDir, modelAnswer, languageAnswer, formatAnswers, outputDir);
      && (w.format == "srt" || w.format == "vtt" || w.format == "txt")
      && Extension(w.format) == "." + w.format
      && MainSettings(inputDir, modelAnswer, formatAnswers, outputDir).format == w.format
  {
    var format := FirstFormat(formatAnswers).value;
    ChosenFormatIsKnown(formatAnswers);
    assert format == "srt" || format == "vtt" || format == "txt";
    ExtensionOfFormat(format);
    assert WhisperSettings(inputDir, modelAnswer, languageAnswer, formatAnswers, outputDir).format == format;
    assert MainSettings(inputDir, modelAnswer, formatAnswers, outputDir).format == format;
  }

  // ----- properties of the output path -----

  /** The file is written directly into the output directory, under the
      last component of the audio file's name without its extension, with
      the extension of the format. */
  lemma OutputPathShape(outputDir: string, format: string, name: string)
    ensures var b := Basename(Root(name)); var p := OutputPath(outputDir, format, name);
      && '/' !in b
      && (outputDir == [] || outputDir[|outputDir| - 1] == '/' ==> p == outputDir + b + Extension(format))
      && (outputDir != [] && outputDir[|outputDir| - 1] != '/' ==> p == outputDir + "/" + b + Extension(format))
  {
    var b := Basename(Root(name));
    if |b| > 0 {
      assert b[0] != '/';
    }
  }

  /** "srt", "vtt" and "txt" files get their own extension; any other
      format is written as ".srt", like the SubRip branch. */
  lemma ExtensionOfFormat(format: string)
    ensures format == "srt" || format == "vtt" || format == "txt" ==> Extension(format) == "." + format
    ensures format != "vtt" && format != "txt" ==> Extension(format) == Extension("srt")
  {
  }

  /** `stem + ext` splits back into `stem` when `ext` is a dot followed by
      no dot and no "/", and the stem is a file name that is not all dots. */
  lemma RootOfStem(stem: string, ext: string)
    requires '/' !in stem && !AllDots(stem)
    requires |ext| >= 1 && ext[0] == '.' && '.' !in ext[1..] && '/' !in ext
    ensures Root(stem + ext) == stem
  {
    var p := stem + ext;
    var sep := RFind(p, '/');
    var dot := RFind(p, '.');
    assert p[|stem|] == '.';
    forall j | |stem| < j < |p| ensures p[j] != '.' {
      assert p[j] == ext[1..][j - |stem| - 1];
    }
    assert dot == |stem|;
    forall j | 0 <= j < |p| ensures p[j] != '/' {
      if j < |stem| {
        assert p[j] == stem[j];
      } else {
        assert p[j] == ext[j - |stem|];
      }
    }
    assert sep == -1;
    assert p[sep + 1..dot] == stem;
  }

  /** Two audio files that differ only in their extension, such as "a.mp3"
      and "a.wav", are written to the same path, so the one processed later
      replaces the other. */
  lemma SameStemSamePath(outputDir: string, format: string, stem: string, ext1: string, ext2: string)
    requires '/' !in stem && !AllDots(stem)
    requires |ext1| >= 1 && ext1[0] == '.' && '.' !in ext1[1..] && '/' !in ext1
    requires |ext2| >= 1 && ext2[0] == '.' && '.' !in ext2[1..] && '/' !in ext2
    ensures OutputPath(outputDir, format, stem + ext1) == OutputPath(outputDir, format, stem + ext2)
  {
    RootOfStem(stem, ext1);
    RootOfStem(stem, ext2);
  }

  /** Of two transcribed files written to the same path, the second one's
      transcript is what the path holds. */
  lemma LaterOverwrites(s: Settings, engine: Engine, first: string, second: string, outputs: map<string, string>)
    requires Succeeds(s, engine, first) && Succeeds(s, engine, second)
    requires OutputPath(s.outputDir, s.format, first) == OutputPath(s.outputDir, s.format, second)
    ensures var p := OutputPath(s.outputDir, s.format, second);
      p in Written(s, engine, [first, second], outputs)
      && Written(s, engine, [first, second], outputs)[p] == Render(s.format, Transcribe(s, engine, second).transcript)
  {
    LastWriterWins(s, engine, [first, second], outputs, 1);
  }

  /** A name whose only dot is its first character, such as ".mp3", has no
      extension, so its output keeps the whole name, as in ".mp3.srt".
      (`Discovery.DotFileListed` shows ".mp3" is listed as an audio file.) */
  lemma DotFileKeepsName(outputDir: string, x: string)
    requires '.' !in x && '/' !in x
    ensures Root(['.'] + x) == ['.'] + x
    ensures OutputPath(outputDir, "srt", ['.'] + x) == Join(outputDir, ['.'] + x) + ".srt"
  {
    var p := ['.'] + x;
    forall j | 0 < j < |p| ensures p[j] != '.' && p[j] != '/' {
      assert p[j] == x[j - 1];
    }
    assert p[0] == '.';
    assert RFind(p, '.') == 0;
    assert Basename(p) == p;
  }
}
