# Batch Whisper transcriber — a Dafny model

The program lists the audio and video files of a directory. It sends each
file to the Whisper speech-recognition engine and writes one subtitle file
per transcribed file, as SubRip (`.srt`), WebVTT (`.vtt`) or plain text
(`.txt`). `whisper.py` also asks for a language; `main.py` is the same
program with the language fixed to auto-detect.

The model has eight modules in seven files:

- `Wrappers` (in `Text.dfy`): the `Option` type.
- `Text`: the ASCII string operations the program relies on.
  These are `str.strip`, `str.lower`, `str.endswith` and the decimal
  rendering of `f"{n}"` and `f"{n:0Wd}"`.
- `Timestamp`: `format_timestamp` and `format_timestamp_vtt` over exact
  non-negative reals.
- `Subtitles`: the three serialisers as pure functions. There is also an
  `OutFile` class whose `Write` appends. The write loops of the SubRip and
  WebVTT branches and the single write of the text branch are proved to
  produce exactly those texts.
- `Languages`: the full-name and alias tables, their merge, and the
  resolver of the language answer.
- `Discovery`: `list_audio_files` over a listing given as a sequence.
- `Choices`: the model menu and the output-format loop.
- `Batch`: the per-file loop. It is a `Transcriber` class whose fields are
  the output directory (a map from path to contents), the log of model
  loads and the engine calls made. The engine is an oracle parameter. `Run` is proved
  against the fold `Written`, and the lemmas state what that fold
  guarantees. `WhisperSettings` and `MainSettings` build the settings of the
  two scripts from their answers. They take the format from `FirstFormat`
  of the format answers, which the loop guarantees is some format.

## Model

| member | source | states |
|---|---|---|
| Text.TrimStart | whisper.py:289 | `str.strip`'s left half returns a suffix of the input that is empty or starts with a non-space; `TrimStartDropsSpaces` completes it: everything cut is whitespace, so the suffix starts at the first non-space |
| Text.TrimEnd | whisper.py:289 | the right half returns a prefix that is empty or ends with a non-space; `TrimEndDropsSpaces` completes it: everything cut is whitespace, so the prefix ends at the last non-space |
| Text.TrimStartDropsSpaces | whisper.py:289 | every character the left half cuts is whitespace |
| Text.TrimEndDropsSpaces | whisper.py:289 | every character the right half cuts is whitespace |
| Text.Strip | whisper.py:289 | `str.strip`: its contract is `StripSlice`, `StripEnds` and `StripIdempotent` below, with `TrimStart` and `TrimEnd` for its two halves |
| Text.StripSlice | whisper.py:289 | the input is the whitespace cut in front, the stripped string and the whitespace cut behind, and everything cut is whitespace |
| Text.StripEnds | whisper.py:306 | a stripped string is empty or has no whitespace at either end |
| Text.StripIdempotent | whisper.py:306 | stripping twice is stripping once |
| Text.StripTrimmed | whisper.py:57 | a string without whitespace at its ends is its own strip |
| Text.StripSpaced | whisper.py:135 | a trimmed word between two spaces strips back to the word |
| Text.StripNewline | whisper.py:306 | a trimmed string plus "\n" strips back to the string |
| Text.Lower | whisper.py:19 | lower-casing keeps the length and lower-cases each character |
| Text.LowerChar | whisper.py:19 | only 'A'..'Z' change, each to its lower-case letter |
| Text.LowerCharSpace | whisper.py:135 | lower-casing never turns whitespace into non-whitespace or back |
| Text.LowerIdempotent | whisper.py:135 | lower-casing twice is lower-casing once |
| Text.LowerStripNormal | whisper.py:135 | the key `answer.strip().lower()` is a fixed point of strip-then-lower |
| Text.EndsWith | whisper.py:19 | `str.endswith`: the suffix is the tail of the string; `Discovery.FilterMembership` is the property stated through it |
| Text.Digits | whisper.py:290 | `f"{i}"` is a non-empty digit string with no leading zero |
| Text.ParseDigitsOfDigits | whisper.py:290 | the decimal rendering reads back as the number |
| Text.ParseDigitsLeadingZeros | whisper.py:327 | leading zeros do not change a digit string's value |
| Text.ZerosValue | whisper.py:327 | a run of zeros reads as 0 |
| Text.DigitsShort | whisper.py:327 | a number below 10^w has at most w digits |
| Text.ZeroPadSpec | whisper.py:327 | `f"{n:0Wd}"` is all digits, at least W long, exactly W when n fits, longer only by the digits of n, and reads back as n |
| Timestamp.WholeSeconds | whisper.py:323 | `int(seconds)` is the floor of a non-negative value |
| Timestamp.Millis | whisper.py:323 | the millisecond field is below 1000 and is the fraction times 1000, truncated |
| Timestamp.Decompose | whisper.py:321-326 | m < 60, s < 60, ms < 1000 and h*3600 + m*60 + s is the floor of the input; hours are not capped |
| Timestamp.DivMod3600 | whisper.py:324-326 | the three integer fields recombine to the whole seconds |
| Timestamp.DecomposeInjective | whisper.py:321-326 | two inputs get the same fields exactly when they agree in whole seconds and truncated milliseconds |
| Timestamp.Render | whisper.py:327 | the f-string `{h:02d}:{m:02d}:{s:02d},{ms:03d}` with the separator as a parameter; `FieldWidths`, `RenderShape` and `ParseRender` state what it gives |
| Timestamp.FormatTimestamp | whisper.py:321-327 | `Render` of `Decompose`; `FormatTimestampRoundTrip` and `FormatTimestampEqual` state that it reads back to the decomposition and when two inputs agree |
| Timestamp.FormatTimestampVtt | whisper.py:329-335 | the same with a full stop; `VttIsSrtWithFullStop` and `VttTimestampShape` relate it to the SubRip one and to the WebVTT timestamp syntax |
| Timestamp.FieldWidths | whisper.py:327 | minutes and seconds take 2 characters, milliseconds 3, hours at least 2 |
| Timestamp.RenderShape | whisper.py:327 | the exact position of every field and separator in `hh:mm:ss,mmm` |
| Timestamp.ParseRender | whisper.py:327 | a rendered clock parses back to the same clock |
| Timestamp.FormatTimestampRoundTrip | whisper.py:321-335 | both timestamps read back as the decomposition of the input |
| Timestamp.FormatTimestampEqual | whisper.py:321-327 | two inputs render the same exactly when they agree in whole seconds and truncated milliseconds |
| Timestamp.VttIsSrtWithFullStop | whisper.py:327-335 | the WebVTT timestamp is the SubRip one with the comma replaced by a full stop, nothing else changed |
| Timestamp.VttTimestampShape | whisper.py:329-335 | the WebVTT timestamp has the shape section 4.1 of the W3C WebVTT specification asks for |
| Timestamp.FormatZero | whisper.py:321-327 | 0 s renders as "00:00:00,000" |
| Timestamp.FormatOneHourOneMinute | whisper.py:321-327 | 3661.999 s renders as "01:01:01,999" with exact reals |
| Timestamp.FormatHundredHours | whisper.py:329-335 | 360000 s renders as "100:00:00.000": hours widen, never wrap |
| Timestamp.FormatZeroVtt | whisper.py:329-335 | 0 s renders as "00:00:00.000" |
| Timestamp.Digits500 | whisper.py:327 | 500 ms pads to "500" |
| Timestamp.FormatOneAndAHalf | whisper.py:321-327 | 1.5 s renders as "00:00:01,500" |
| Timestamp.FormatOneAndAHalfVtt | whisper.py:329-335 | 1.5 s renders as "00:00:01.500" |
| Subtitles.NumberedCues | whisper.py:286-292 | the numbered SubRip cues of the segments; `NumberedCuesPrefix`, `NumberedCuesSnoc` and `NumberedCueOfSegment` state their order and shape |
| Subtitles.PlainCues | whisper.py:297-302 | the unnumbered WebVTT cues; `PlainCuesPrefix`, `PlainCuesSnoc` and `PlainCueOfSegment` state their order and shape |
| Subtitles.Srt | whisper.py:283-292 | the SubRip file text: `WriteSrt` proves the branch writes exactly it |
| Subtitles.Vtt | whisper.py:293-302 | the WebVTT file text, "WEBVTT\n\n" then the cues: `WriteVtt` and `EmptyTranscript` |
| Subtitles.Txt | whisper.py:303-306 | the text file: `TxtShape` |
| Subtitles.Render | whisper.py:283-317 | the file text of each of the four branches: `WriteOutput` proves it is what is written, `FallbackIsSrt` that the fallback matches "srt" |
| Subtitles.NumberedCuesPrefix | whisper.py:286-292 | SubRip cues are written in segment order and never revised: the cues of the first i segments are a prefix of the file |
| Subtitles.PlainCuesPrefix | whisper.py:296-302 | the same for WebVTT cues |
| Subtitles.NumberedCuesSnoc | whisper.py:288-292 | one more segment appends its cue, numbered k + 1 |
| Subtitles.PlainCuesSnoc | whisper.py:297-302 | one more segment appends its unnumbered cue |
| Subtitles.NumberedCueOfSegment | whisper.py:283-292 | segment k becomes cue "k+1\n" + ts(start) + " --> " + ts(end) + "\n" + strip(text) + "\n\n", right after the cues before it |
| Subtitles.PlainCueOfSegment | whisper.py:293-302 | segment k becomes its WebVTT cue right after the cues before it |
| Subtitles.TxtShape | whisper.py:303-306 | the text file is the stripped full text plus one "\n", and strips back to the stripped text |
| Subtitles.EmptyTranscript | whisper.py:283-302 | with no segments the WebVTT file is just "WEBVTT\n\n" and the SubRip file is empty |
| Subtitles.FallbackIsSrt | whisper.py:307-317 | any format other than "vtt" and "txt" renders exactly like "srt" |
| Subtitles.OutFile.constructor | whisper.py:285 | `open(path, "w")` gives an empty file |
| Subtitles.OutFile.Write | whisper.py:290 | `write` appends its argument to the text written |
| Subtitles.WriteNumberedCues | whisper.py:286-292 | the SubRip loop's three writes per segment append exactly the numbered cues |
| Subtitles.WritePlainCues | whisper.py:296-302 | the WebVTT loop's two writes per segment append exactly the plain cues |
| Subtitles.WriteSrt | whisper.py:283-292 | the SubRip branch appends `Srt(t)` |
| Subtitles.WriteVtt | whisper.py:293-302 | the WebVTT branch appends the header and then the cues, `Vtt(t)` |
| Subtitles.WriteOutput | whisper.py:283-317 | a fresh file whose text written is exactly `Render(format, t)`, for each of the four branches |
| Languages.SupportedLanguages | whisper.py:61-130 | the full-name table, in four parts; `FullNamesShape` and `AutoKeysListed` state its shape |
| Languages.LanguageAliases | whisper.py:138-220 | the alias table, in five parts, with the later "mal" entry kept; `AliasesShape` and `MalAliasIsMalayalam` |
| Languages.AllLanguages | whisper.py:223 | the merge `{**supported_languages, **language_aliases}`; `MergeKeepsFullNames` and `MergedTableShape` |
| Languages.LookupKey | whisper.py:135 | `strip().lower()`; `ResolveInNormalised` and `CanonicalKey` state what it keeps |
| Languages.TablesShareAutoKeys | whisper.py:61-221 | the full-name and alias tables share exactly the keys "auto" and "auto-detect" |
| Languages.MergeOverridesNothing | whisper.py:223 | for tables of that shape the merge overrides no full-name entry |
| Languages.MergeKeepsFullNames | whisper.py:223 | in the merged table every full name keeps its code and every alias keeps its code |
| Languages.MergedTableShape | whisper.py:223 | every value of the merged table is None or a two-letter code, and "auto" and "auto-detect" are keys |
| Languages.TableShape | whisper.py:61-221 | both tables hold only None or two-letter codes |
| Languages.AutoKeysListed | whisper.py:62-63 | both tables list "auto" and "auto-detect" |
| Languages.CanonicalKey | whisper.py:135 | a key of lower-case letters and hyphens is looked up as written |
| Languages.ResolveIn | whisper.py:135-234 | no language exactly when the key is unknown or an auto key; a known key gives its table value; the notice is auto-detect, unsupported or using-language accordingly |
| Languages.Resolve | whisper.py:225-234 | the resolver over the merged table; its contract is that of `ResolveIn`, whose requires `MergedTableShape` meets, and the examples below instantiate it |
| Languages.ResolveInNormalised | whisper.py:135 | resolving depends only on the stripped, lower-cased answer |
| Languages.ResolveByNormalisedKey | whisper.py:135-225 | any answer that normalises to a full name or an alias resolves to that entry's code |
| Languages.MalEntries | whisper.py:185-206 | the alias table writes "mal" twice, first as "ms", then as "ml" |
| Languages.UnionLookup | whisper.py:223 | in `{**a, **b}` the right-hand entry wins |
| Languages.MalAliasIsMalayalam | whisper.py:185-206 | the later "mal" entry wins: "mal" is "ml" in the alias table |
| Languages.MalResolvesToMalayalam | whisper.py:206-234 | "mal" resolves to Malayalam, "ml", not Malay |
| Languages.ResolveEnglish | whisper.py:64-234 | "English" resolves to "en" |
| Languages.ResolveEng | whisper.py:141-234 | " eng " resolves to "en" |
| Languages.ResolveAuto | whisper.py:225-229 | "Auto" resolves to no language, announced as auto-detect |
| Languages.KlingonUnknown | whisper.py:223 | "klingon" is in neither table |
| Languages.ResolveKlingon | whisper.py:225-232 | an unknown name resolves to no language, with the unsupported warning |
| Discovery.HasExtension | whisper.py:19 | `any(filename.lower().endswith(ext) for ext in extensions)`: the examples `UpperCaseExtensionKept`, `TextFileDropped` and `WaveFileKept` |
| Discovery.Filter | whisper.py:17-21 | the kept names in listing order: `ListAudioFiles` computes it, `FilterMembership`, `FilterCount` and `FilterSubsequence` state what it keeps |
| Discovery.ExtensionsOrDefault | whisper.py:15-16 | `None` selects the eight default extensions |
| Discovery.ListAudioFiles | whisper.py:14-21 | the loop returns `Filter(listing, extensions)` |
| Discovery.FilterAppend | whisper.py:18-20 | filtering distributes over concatenation, keeping order |
| Discovery.FilterCount | whisper.py:18-20 | each name is kept as many times as it is listed if it has an extension, else never |
| Discovery.FilterMembership | whisper.py:18-20 | a name is in the result exactly when it is listed and its lower-cased form ends with an extension |
| Discovery.FilterSubsequence | whisper.py:18-20 | the result is a subsequence of the listing: nothing added, order kept |
| Discovery.SubsequenceExtend | whisper.py:18-20 | a subsequence stays one when the listing grows |
| Discovery.SubsequenceOfInit | whisper.py:18-20 | dropping the last kept name keeps a subsequence |
| Discovery.UpperCaseExtensionKept | whisper.py:19 | "a.MP3" counts as an audio file |
| Discovery.TextFileDropped | whisper.py:19 | "b.txt" does not |
| Discovery.DotFileListed | whisper.py:18-20 | a listing holding just ".mp3" keeps it: the name counts as an audio file |
| Discovery.WaveFileKept | whisper.py:19 | "c.wav" counts as an audio file |
| Discovery.FilterSingle | whisper.py:18-20 | a one-name listing is kept exactly when the name has an extension |
| Discovery.FilterKeepsOuter | whisper.py:18-20 | of three names, where only the middle one has no extension, the outer two are kept in order |
| Discovery.ListingExample | whisper.py:14-21 | "a.MP3", "b.txt", "c.wav" gives "a.MP3", "c.wav" |
| Choices.ModelName | main.py:47-58 | the model is always one of the five names: the menu entry of the stripped answer when that is a menu number, and "medium" for any other answer |
| Choices.ModelValues | main.py:47-53 | the menu holds only the five model names |
| Choices.ModelMenu | main.py:47-58 | each menu number gives its own model |
| Choices.ModelMenuPadded | main.py:57-58 | a menu number typed with spaces around it, such as " 3 ", still gives its own model, because the answer is stripped first |
| Choices.ModelDefault | main.py:57-58 | every answer whose stripped form is not "1".."5" gives "medium" |
| Choices.FirstFormat | main.py:72-74 | the format of the first answer that is a menu number, if any: `ChooseFormat` computes it, `FirstFormatSpec` and `ChosenFormatIsKnown` state what it is |
| Choices.ChooseFormat | main.py:72-74 | the loop returns the format of the first answer that is a menu number |
| Choices.FirstFormatSpec | main.py:72-74 | no format exactly when no answer is a menu number; otherwise the format of the first such answer |
| Choices.ChosenFormatIsKnown | main.py:72-74 | the loop leaves only with "srt", "vtt" or "txt", so the fallback branch is unreachable |
| Choices.FormatValues | main.py:63-67 | the format menu holds only "srt", "vtt" and "txt" |
| Batch.RFind | whisper.py:281 | `rfind` gives the last index of the character, or -1 when it is absent |
| Batch.Basename | whisper.py:282 | the base name has no "/" and is the tail of the path after its last "/" |
| Batch.Root | whisper.py:281 | `os.path.splitext(p)[0]`: `RootOfStem` and `DotFileKeepsName` state what it cuts |
| Batch.Join | whisper.py:273 | `os.path.join` of a directory and a name: `OutputPathShape` |
| Batch.Extension | whisper.py:283-309 | the extension of each branch: `ExtensionOfFormat` |
| Batch.OutputPath | whisper.py:281-309 | `out_base + ext`: `OutputPathShape`, `SameStemSamePath` |
| Batch.WhisperSettings | whisper.py:135-247 | the settings whisper.py builds from its answers: `WhisperPassesResolved` and `SettingsNeverFallBack` |
| Batch.MainSettings | main.py:47-74 | the settings main.py builds, with no language: `MainPassesNoLanguage` and `SettingsNeverFallBack` |
| Batch.LanguageOption | whisper.py:269-271 | the language is passed exactly when it is present and non-empty |
| Batch.Requests | whisper.py:267-275 | the engine calls made, one per file: `RequestsSpec` |
| Batch.EffectOf | whisper.py:274-317 | what one file does to the output directory; `SkipFailure`, `WrittenKeys`, `WrittenElsewhere` and `LastWriterWins` state its consequences |
| Batch.Written | whisper.py:267-319 | the output directory after the loop, `Run`'s specification; `SkipFailure`, `WrittenKeys`, `WrittenElsewhere` and `LastWriterWins` state what it holds |
| Batch.Transcriber.constructor | whisper.py:259 | no model loads, nothing called, the output directory as it was |
| Batch.Transcriber.Run | whisper.py:259-319 | with no audio files: no model loaded, no call, no write. Otherwise: the chosen model is loaded exactly once (one entry added to the load log), one engine call per file with that model in listing order, and the text written to the output directory is `Written` |
| Batch.ApplyAppend | whisper.py:267 | processing two lists in turn is processing their concatenation |
| Batch.ApplyKeys | whisper.py:267-319 | the paths afterwards are those before plus those written |
| Batch.ApplyElsewhere | whisper.py:267-319 | a path nothing writes keeps its contents |
| Batch.ApplyLastPut | whisper.py:285 | the last write to a path decides its contents |
| Batch.EffectsSpec | whisper.py:267 | file k of the list has its own effect, in listing order |
| Batch.EffectsAppend | whisper.py:267 | effects of a concatenation are the concatenated effects |
| Batch.SkipFailure | whisper.py:274-279 | a failed file writes nothing, and the files before and after it are processed as if it were absent |
| Batch.WrittenKeys | whisper.py:267-319 | a path exists afterwards exactly when it existed before or a transcribed file is written to it |
| Batch.WrittenElsewhere | whisper.py:267-319 | a path no transcribed file is written to keeps its earlier contents |
| Batch.LastWriterWins | whisper.py:281-317 | the path holds the transcript of the last file transcribed to it |
| Batch.RequestsSpec | whisper.py:267-275 | one engine call per listed file, failed or not, each with the loaded model, the joined path and the same language option |
| Batch.MainPassesNoLanguage | main.py:61 | main.py never passes a language to the engine |
| Batch.WhisperPassesResolved | whisper.py:225-271 | whisper.py passes exactly the resolved language: codes are never empty |
| Batch.SettingsNeverFallBack | whisper.py:245-247 | both scripts write with "srt", "vtt" or "txt" and that format's own extension, so the fallback branch (whisper.py:307-317) is never taken |
| Batch.OutputPathShape | whisper.py:281-282 | the output file lies directly in the output directory, named after the last component of the audio name without its extension |
| Batch.ExtensionOfFormat | main.py:110-136 | "srt", "vtt" and "txt" get their own extension; any other format gets ".srt" |
| Batch.RootOfStem | main.py:108 | `splitext` cuts exactly one final extension from a name that is not all dots |
| Batch.SameStemSamePath | main.py:108-109 | names differing only in extension, such as "a.mp3" and "a.wav", share an output path |
| Batch.LaterOverwrites | main.py:108-119 | of two such files the later one's transcript is what remains |
| Batch.DotFileKeepsName | main.py:108-109 | a name whose only dot leads, such as ".mp3", is its own root, and its SubRip output path is the joined whole name plus ".srt", giving ".mp3.srt" |

Both scripts run the same code, and the model holds it once. `main.py`
differs only in `language = None` (main.py:61), which `MainSettings`
captures. Its line numbers for the shared code are main.py:14-21
(discovery), main.py:94-146 (the per-file loop) and main.py:148-162
(timestamps).

## Left out

- The console prompts are not modelled: the `input()` loops for the two directories, `os.path.isdir`, `os.makedirs`, the printed messages and `language_input.title()`. The answers are parameters.
- `check_ffmpeg`, `whisper.load_model` and `model.transcribe` are left out. The engine is an oracle function from model name, path and language option to a transcript or a failure. Loading is recorded as a field, not performed.
- `setup.py` is not part of this model. It is installer scripting: downloads, subprocesses, pip and PyInstaller.
- Reading the directory is not modelled. The listing is an input sequence in whatever order `os.listdir` would give.
- The file system is a map from path to contents. Errors from `open` or `write` are not modelled, and neither is the UTF-8 encoding.
- `Subtitles.OutFile.Write`, `Subtitles.WriteOutput` and `Batch.Transcriber.Run`: `contents` and `outputs` hold the text passed to `write`, with "\n" line ends. Newline translation is not modelled. The files are opened in text mode with the default newline handling (whisper.py:285, 295, 305, 310), so on Windows, the only platform the installer accepts (setup.py:86-88), each "\n" is stored as "\r\n".
- Floating point is not modelled: times are exact non-negative reals. IEEE-754 effects such as 3661.999 truncating to 998 ms are absent, and negative times are excluded by the `Seconds` type.
- `str.strip`, `str.lower` and `str.isspace` are modelled over ASCII only. Unicode whitespace and case mapping are out of scope.
- Paths follow the POSIX rules of `os.path`. The Windows rules (backslashes, drive letters) are not modelled.
- Paths are compared exactly, as on a case-sensitive POSIX file system. The installer targets only Windows (setup.py:86-87), where path identity ignores case, so "a.mp3" and "A.wav" write one file. `Run`, `WrittenKeys` and `LastWriterWins` treat "a.srt" and "A.srt" as two outputs; such collisions are not modelled.
- `Choices.ChooseFormat` returns `None` when the answers run out. In the program, `input()` then raises `EOFError` and the script stops.
- `Languages.Resolve` has no contract of its own. It is `ResolveIn` applied to the merged table, whose shape `MergedTableShape` proves, so `ResolveIn`'s contract is what it promises.
- `Subtitles.WriteNumberedCues` and `Subtitles.WritePlainCues` are proved for any timestamp renderer. The SubRip and WebVTT branches instantiate them with the two timestamp functions.
- Concrete examples over whole subtitle files are not stated. The general lemmas (`NumberedCueOfSegment`, `PlainCueOfSegment`, `TxtShape`) cover them.
