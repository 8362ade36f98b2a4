/**
 * The language resolver of whisper.py: the free-text answer to the language
 * prompt is trimmed and lower-cased, then looked up in the union of the
 * full-name table and the alias table; anything unknown means auto-detect.
 */
module Languages {
  import opened Wrappers
  import opened Text

  // The full-name table (`supported_languages`, whisper.py:61-130). Each
  // literal table is written as consecutive map displays of at most 17
  // entries joined by `+`. A later maplet of a display overrides an earlier
  // one with the same key and `+` lets its right operand win, so the union
  // is the map the single Python dict literal builds; the split keeps each
  // proof about the table small.

  function FullNames0(): map<string, Option<string>> {
    map[
      "auto" := None,
      "auto-detect" := None,
      "english" := Some("en"),
      "vietnamese" := Some("vi"),
      "chinese" := Some("zh"),
      "japanese" := Some("ja"),
      "korean" := Some("ko"),
      "spanish" := Some("es"),
      "french" := Some("fr"),
      "german" := Some("de"),
      "russian" := Some("ru"),
      "portuguese" := Some("pt"),
      "italian" := Some("it"),
      "arabic" := Some("ar"),
      "hindi" := Some("hi"),
      "thai" := Some("th"),
      "dutch" := Some("nl")
    ]
  }

  function FullNames1(): map<string, Option<string>> {
    map[
      "greek" := Some("el"),
      "turkish" := Some("tr"),
      "polish" := Some("pl"),
      "czech" := Some("cs"),
      "slovak" := Some("sk"),
      "hungarian" := Some("hu"),
      "romanian" := Some("ro"),
      "bulgarian" := Some("bg"),
      "croatian" := Some("hr"),
      "serbian" := Some("sr"),
      "slovenian" := Some("sl"),
      "estonian" := Some("et"),
      "latvian" := Some("lv"),
      "lithuanian" := Some("lt"),
      "finnish" := Some("fi"),
      "swedish" := Some("sv"),
      "danish" := Some("da")
    ]
  }

  function FullNames2(): map<string, Option<string>> {
    map[
      "norwegian" := Some("no"),
      "icelandic" := Some("is"),
      "hebrew" := Some("he"),
      "malay" := Some("ms"),
      "indonesian" := Some("id"),
      "filipino" := Some("tl"),
      "ukrainian" := Some("uk"),
      "belarusian" := Some("be"),
      "macedonian" := Some("mk"),
      "albanian" := Some("sq"),
      "armenian" := Some("hy"),
      "azerbaijani" := Some("az"),
      "georgian" := Some("ka"),
      "kazakh" := Some("kk"),
      "kyrgyz" := Some("ky"),
      "mongolian" := Some("mn"),
      "nepali" := Some("ne")
    ]
  }

  function FullNames3(): map<string, Option<string>> {
    map[
      "sinhala" := Some("si"),
      "tamil" := Some("ta"),
      "telugu" := Some("te"),
      "malayalam" := Some("ml"),
      "kannada" := Some("kn"),
      "gujarati" := Some("gu"),
      "punjabi" := Some("pa"),
      "bengali" := Some("bn"),
      "marathi" := Some("mr"),
      "oriya" := Some("or"),
      "urdu" := Some("ur"),
      "pashto" := Some("ps"),
      "persian" := Some("fa"),
      "swahili" := Some("sw"),
      "afrikaans" := Some("af"),
      "zulu" := Some("zu"),
      "xhosa" := Some("xh")
    ]
  }

  function SupportedLanguages(): map<string, Option<string>> {
    FullNames0() + FullNames1() + FullNames2() + FullNames3()
  }

  // The alias table (`language_aliases`, whisper.py:138-220). The key "mal"
  // occurs twice: as Malay in Aliases2() and as Malayalam at the end of
  // Aliases3(); the later entry is the one the dict keeps.

  function Aliases0(): map<string, Option<string>> {
    map[
      "auto" := None,
      "auto-detect" := None,
      "eng" := Some("en"),
      "vie" := Some("vi"),
      "chi" := Some("zh"),
      "zho" := Some("zh"),
      "jpn" := Some("ja"),
      "kor" := Some("ko"),
      "spa" := Some("es"),
      "fra" := Some("fr"),
      "fre" := Some("fr"),
      "deu" := Some("de"),
      "ger" := Some("de"),
      "rus" := Some("ru"),
      "por" := Some("pt"),
      "ita" := Some("it"),
      "ara" := Some("ar")
    ]
  }

  function Aliases1(): map<string, Option<string>> {
    map[
      "hin" := Some("hi"),
      "tha" := Some("th"),
      "dut" := Some("nl"),
      "nld" := Some("nl"),
      "gre" := Some("el"),
      "ell" := Some("el"),
      "tur" := Some("tr"),
      "pol" := Some("pl"),
      "cze" := Some("cs"),
      "ces" := Some("cs"),
      "slo" := Some("sk"),
      "slk" := Some("sk"),
      "hun" := Some("hu"),
      "rom" := Some("ro"),
      "ron" := Some("ro"),
      "bul" := Some("bg"),
      "hrv" := Some("hr")
    ]
  }

  function Aliases2(): map<string, Option<string>> {
    map[
      "ser" := Some("sr"),
      "slv" := Some("sl"),
      "est" := Some("et"),
      "lav" := Some("lv"),
      "lit" := Some("lt"),
      "fin" := Some("fi"),
      "swe" := Some("sv"),
      "dan" := Some("da"),
      "nor" := Some("no"),
      "ice" := Some("is"),
      "isl" := Some("is"),
      "heb" := Some("he"),
      "mal" := Some("ms"),
      "ind" := Some("id"),
      "fil" := Some("tl"),
      "ukr" := Some("uk"),
      "bel" := Some("be")
    ]
  }

  function Aliases3(): map<string, Option<string>> {
    map[
      "mac" := Some("mk"),
      "mkd" := Some("mk"),
      "alb" := Some("sq"),
      "sqi" := Some("sq"),
      "arm" := Some("hy"),
      "hye" := Some("hy"),
      "aze" := Some("az"),
      "geo" := Some("ka"),
      "kat" := Some("ka"),
      "kaz" := Some("kk"),
      "kyr" := Some("ky"),
      "mon" := Some("mn"),
      "nep" := Some("ne"),
      "sin" := Some("si"),
      "tam" := Some("ta"),
      "tel" := Some("te"),
      "mal" := Some("ml")
    ]
  }

  function Aliases4(): map<string, Option<string>> {
    map[
      "kan" := Some("kn"),
      "guj" := Some("gu"),
      "pan" := Some("pa"),
      "ben" := Some("bn"),
      "mar" := Some("mr"),
      "ori" := Some("or"),
      "urd" := Some("ur"),
      "pus" := Some("ps"),
      "fas" := Some("fa"),
      "swa" := Some("sw"),
      "afr" := Some("af"),
      "zul" := Some("zu"),
      "xho" := Some("xh")
    ]
  }

  function LanguageAliases(): map<string, Option<string>> {
    Aliases0() + Aliases1() + Aliases2() + Aliases3() + Aliases4()
  }

  /** `{**supported_languages, **language_aliases}`: on a shared key the
      alias table, merged last, wins. */
  function AllLanguages(): map<string, Option<string>> {
    SupportedLanguages() + LanguageAliases()
  }

  /** A table value: auto-detect (None) or a two-letter language code. */
  predicate IsCode(v: Option<string>) {
    v.None? || |v.value| == 2
  }

  predicate IsAutoKey(key: string) {
    key == "auto" || key == "auto-detect"
  }

  /** Every value of `table` is a two-letter code, except that the auto keys
      map to auto-detect. */
  ghost predicate CodesOnly(table: map<string, Option<string>>) {
    forall k :: k in table ==> IsCode(table[k]) && (table[k].None? <==> IsAutoKey(k))
  }

  ghost predicate KeysAtLeast(table: map<string, Option<string>>, n: nat) {
    forall k :: k in table ==> IsAutoKey(k) || n <= |k|
  }

  ghost predicate KeysExactly(table: map<string, Option<string>>, n: nat) {
    forall k :: k in table ==> IsAutoKey(k) || n == |k|
  }

  // One lemma per part of the literal tables keeps each proof obligation
  // within the solver's budget.

  lemma FullNames0Shape()
    ensures "auto" in FullNames0() && "auto-detect" in FullNames0()
    ensures KeysAtLeast(FullNames0(), 4) && CodesOnly(FullNames0())
  {
    assert CodesOnly(FullNames0()) by {}
  }

  lemma FullNames1Shape()
    ensures KeysAtLeast(FullNames1(), 4) && CodesOnly(FullNames1())
  {
    assert CodesOnly(FullNames1()) by {}
  }

  lemma FullNames2Shape()
    ensures KeysAtLeast(FullNames2(), 4) && CodesOnly(FullNames2())
  {
    assert CodesOnly(FullNames2()) by {}
  }

  lemma FullNames3Shape()
    ensures KeysAtLeast(FullNames3(), 4) && CodesOnly(FullNames3())
  {
    assert CodesOnly(FullNames3()) by {}
  }

  lemma Aliases0Shape()
    ensures "auto" in Aliases0() && "auto-detect" in Aliases0()
    ensures KeysExactly(Aliases0(), 3) && CodesOnly(Aliases0())
  {
    assert CodesOnly(Aliases0()) by {}
  }

  lemma Aliases1Shape()
    ensures KeysExactly(Aliases1(), 3) && CodesOnly(Aliases1())
  {
    assert CodesOnly(Aliases1()) by {}
  }

  lemma Aliases2Shape()
    ensures KeysExactly(Aliases2(), 3) && CodesOnly(Aliases2())
  {
    assert CodesOnly(Aliases2()) by {}
  }

  lemma Aliases3Shape()
    ensures KeysExactly(Aliases3(), 3) && CodesOnly(Aliases3())
  {
    assert CodesOnly(Aliases3()) by {}
  }

  lemma Aliases4Shape()
    ensures KeysExactly(Aliases4(), 3) && CodesOnly(Aliases4())
  {
    assert CodesOnly(Aliases4()) by {}
  }

  lemma ShapeUnion(a: map<string, Option<string>>, b: map<string, Option<string>>, n: nat)
    ensures CodesOnly(a) && CodesOnly(b) ==> CodesOnly(a + b)
    ensures KeysAtLeast(a, n) && KeysAtLeast(b, n) ==> KeysAtLeast(a + b, n)
    ensures KeysExactly(a, n) && KeysExactly(b, n) ==> KeysExactly(a + b, n)
  {
  }

  /** Full names are at least four characters long (the auto keys apart)
      and map to two-letter codes. */
  lemma FullNamesShape()
    ensures KeysAtLeast(SupportedLanguages(), 4) && CodesOnly(SupportedLanguages())
  {
    FullNames0Shape();
    FullNames1Shape();
    FullNames2Shape();
    FullNames3Shape();
    ShapeUnion(FullNames0(), FullNames1(), 4);
    ShapeUnion(FullNames0() + FullNames1(), FullNames2(), 4);
    ShapeUnion(FullNames0() + FullNames1() + FullNames2(), FullNames3(), 4);
  }

  /** Aliases are exactly three characters long (the auto keys apart) and
      map to two-letter codes. */
  lemma AliasesShape()
    ensures KeysExactly(LanguageAliases(), 3) && CodesOnly(LanguageAliases())
  {
    Aliases0Shape();
    Aliases1Shape();
    Aliases2Shape();
    Aliases3Shape();
    Aliases4Shape();
    ShapeUnion(Aliases0(), Aliases1(), 3);
    ShapeUnion(Aliases0() + Aliases1(), Aliases2(), 3);
    ShapeUnion(Aliases0() + Aliases1() + Aliases2(), Aliases3(), 3);
    ShapeUnion(Aliases0() + Aliases1() + Aliases2() + Aliases3(), Aliases4(), 3);
  }

  /** The shape of the two literal tables and of their merge. */
  lemma TableShape()
    ensures KeysAtLeast(SupportedLanguages(), 4) && CodesOnly(SupportedLanguages())
    ensures KeysExactly(LanguageAliases(), 3) && CodesOnly(LanguageAliases())
    ensures CodesOnly(AllLanguages())
  {
    FullNamesShape();
    AliasesShape();
    ShapeUnion(SupportedLanguages(), LanguageAliases(), 3);
  }

  /** Both tables list the two auto keys. */
  lemma AutoKeysListed()
    ensures "auto" in SupportedLanguages() && "auto-detect" in SupportedLanguages()
    ensures "auto" in LanguageAliases() && "auto-detect" in LanguageAliases()
  {
    FullNames0Shape();
    Aliases0Shape();
    UnionLookup(FullNames0(), FullNames1(), "auto");
    UnionLookup(FullNames0(), FullNames1(), "auto-detect");
  }

  /** Merging a table of aliases (three-character keys) into a table of
      full names (keys of four characters or more), both mapping the auto
      keys to auto-detect, overrides no full name. */
  lemma MergeOverridesNothing(names: map<string, Option<string>>, aliases: map<string, Option<string>>)
    requires KeysAtLeast(names, 4) && KeysExactly(aliases, 3)
    requires CodesOnly(names) && CodesOnly(aliases)
    requires "auto" in names && "auto-detect" in names && "auto" in aliases && "auto-detect" in aliases
    ensures names.Keys * aliases.Keys == {"auto", "auto-detect"}
    ensures forall k :: k in names ==> (names + aliases)[k] == names[k]
  {
  }

  /** The merged table maps every key to a code or auto-detect, and lists
      the auto keys. */
  lemma MergedTableShape()
    ensures CodesOnly(AllLanguages()) && "auto" in AllLanguages() && "auto-detect" in AllLanguages()
  {
    TableShape();
    AutoKeysListed();
  }

  /** The full-name and alias tables share only the two auto keys. */
  lemma TablesShareAutoKeys()
    ensures SupportedLanguages().Keys * LanguageAliases().Keys == {"auto", "auto-detect"}
  {
    TableShape();
    AutoKeysListed();
    MergeOverridesNothing(SupportedLanguages(), LanguageAliases());
  }

  /** Both auto keys map to auto-detect, so merging the aliases in last
      overrides no full name: every full name keeps its own code in the
      merged table, and every alias its own. */
  lemma MergeKeepsFullNames(k: string)
    ensures k in SupportedLanguages() ==> k in AllLanguages() && AllLanguages()[k] == SupportedLanguages()[k]
    ensures k in LanguageAliases() ==> k in AllLanguages() && AllLanguages()[k] == LanguageAliases()[k]
  {
    TableShape();
    AutoKeysListed();
    MergeOverridesNothing(SupportedLanguages(), LanguageAliases());
  }

  /** What the prompt handler prints after the lookup (whisper.py:227-234). */
  datatype Notice = AutoDetect | Unsupported(key: string) | UsingLanguage(key: string)

  datatype Resolution = Resolution(language: Option<string>, notice: Notice)

  /** The key looked up: the answer to the prompt, stripped and lower-cased. */
  function LookupKey(answer: string): string {
    Lower(Strip(answer))
  }

  /** Lower-case letters and hyphens, the alphabet of every table key. */
  predicate IsCanonical(key: string) {
    forall i :: 0 <= i < |key| ==> 'a' <= key[i] <= 'z' || key[i] == '-'
  }

  /** A key written in that alphabet is looked up as it is. */
  lemma CanonicalKey(key: string)
    requires IsCanonical(key)
    ensures LookupKey(key) == key
  {
    StripTrimmed(key);
  }

  /** `all_languages.get(language_input, None)` and the branch on its result
      (whisper.py:135, 223-234), over a given merged table. */
  function ResolveIn(table: map<string, Option<string>>, answer: string): (r: Resolution)
    requires CodesOnly(table) && "auto" in table && "auto-detect" in table
    ensures r.language.Some? ==> |r.language.value| == 2
    ensures r.language.None? <==> LookupKey(answer) !in table || IsAutoKey(LookupKey(answer))
    ensures LookupKey(answer) in table ==> r.language == table[LookupKey(answer)]
    ensures r.notice.UsingLanguage? <==> r.language.Some?
    ensures r.notice.AutoDetect? <==> IsAutoKey(LookupKey(answer))
    ensures r.notice.Unsupported? <==> LookupKey(answer) !in table
    ensures r.notice.Unsupported? || r.notice.UsingLanguage? ==> r.notice.key == LookupKey(answer)
  {
    var key := LookupKey(answer);
    var language := if key in table then table[key] else None;
    if language.None? then
      if key == "auto" || key == "auto-detect" then Resolution(None, AutoDetect)
      else Resolution(None, Unsupported(key))
    else Resolution(language, UsingLanguage(key))
  }

  /** The resolver of whisper.py over its own merged table; what it
      promises is the contract of `ResolveIn`, which holds for every table
      of the same shape. */
  function Resolve(answer: string): Resolution
  {
    MergedTableShape();
    ResolveIn(AllLanguages(), answer)
  }

  /** Resolving only looks at the normalised key, so resolving that key
      again gives the same result. */
  lemma ResolveInNormalised(table: map<string, Option<string>>, answer: string)
    requires CodesOnly(table) && "auto" in table && "auto-detect" in table
    ensures ResolveIn(table, answer) == ResolveIn(table, LookupKey(answer))
  {
    LowerStripNormal(answer);
  }

  /** Case and surrounding whitespace of the answer do not matter: any answer
      that normalises to a full name or an alias resolves to that entry's
      code, and resolving the normalised key again gives the same result. */
  lemma ResolveByNormalisedKey(answer: string)
    ensures Resolve(answer) == Resolve(LookupKey(answer))
    ensures LookupKey(answer) in SupportedLanguages() ==>
      Resolve(answer).language == SupportedLanguages()[LookupKey(answer)]
    ensures LookupKey(answer) in LanguageAliases() ==>
      Resolve(answer).language == LanguageAliases()[LookupKey(answer)]
  {
    MergedTableShape();
    ResolveInNormalised(AllLanguages(), answer);
    MergeKeepsFullNames(LookupKey(answer));
  }

  // Examples. Each fact about a literal key or a part of a table is proved
  // in a lemma of its own, which keeps every proof obligation small.

  lemma MalKey() ensures LookupKey("mal") == "mal" { CanonicalKey("mal"); }

  lemma EnglishKey() ensures LookupKey("English") == "english" { StripTrimmed("English"); }

  /** A canonical key between two spaces is looked up without them. */
  lemma PaddedKey(key: string)
    requires key != [] && IsCanonical(key)
    ensures LookupKey([' '] + key + [' ']) == key
  {
    StripSpaced(key);
    CanonicalKey(key);
    StripTrimmed(key);
  }

  lemma EngKey() ensures LookupKey([' '] + "eng" + [' ']) == "eng" {
    PaddedKey("eng");
  }

  lemma AutoKey() ensures LookupKey("Auto") == "auto" { StripTrimmed("Auto"); }

  lemma KlingonKey() ensures LookupKey("klingon") == "klingon" { CanonicalKey("klingon"); }

  /** The two "mal" entries: Malay in the third part of the alias table,
      Malayalam at the end of the fourth, and none after it. */
  lemma MalEntries()
    ensures "mal" in Aliases2() && Aliases2()["mal"] == Some("ms")
    ensures "mal" in Aliases3() && Aliases3()["mal"] == Some("ml")
    ensures "mal" !in Aliases4()
  {
  }

  /** A key of the right operand of `+` takes its value from there. */
  lemma UnionLookup(a: map<string, Option<string>>, b: map<string, Option<string>>, k: string)
    ensures k in b ==> k in a + b && (a + b)[k] == b[k]
    ensures k !in b && k in a ==> k in a + b && (a + b)[k] == a[k]
  {
  }

  /** In the whole alias table "mal" keeps its later value. */
  lemma MalAliasIsMalayalam()
    ensures "mal" in LanguageAliases() && LanguageAliases()["mal"] == Some("ml")
  {
    MalEntries();
    UnionLookup(Aliases0() + Aliases1() + Aliases2(), Aliases3(), "mal");
    UnionLookup(Aliases0() + Aliases1() + Aliases2() + Aliases3(), Aliases4(), "mal");
  }

  /** The alias table lists "mal" twice, first for Malay ("ms") and later
      for Malayalam ("ml"); the later entry wins, so "mal" resolves to "ml". */
  lemma MalResolvesToMalayalam()
    ensures Resolve("mal") == Resolution(Some("ml"), UsingLanguage("mal"))
  {
    MalAliasIsMalayalam();
    MalKey();
    ResolveByNormalisedKey("mal");
  }

  lemma EnglishEntry()
    ensures "english" in FullNames0() && FullNames0()["english"] == Some("en")
    ensures "english" !in FullNames1() && "english" !in FullNames2() && "english" !in FullNames3()
  {
  }

  /** A full name in any case: "English" resolves to "en". */
  lemma ResolveEnglish()
    ensures Resolve("English") == Resolution(Some("en"), UsingLanguage("english"))
  {
    EnglishEntry();
    UnionLookup(FullNames0(), FullNames1(), "english");
    UnionLookup(FullNames0() + FullNames1(), FullNames2(), "english");
    UnionLookup(FullNames0() + FullNames1() + FullNames2(), FullNames3(), "english");
    EnglishKey();
    ResolveByNormalisedKey("English");
  }

  lemma EngEntry()
    ensures "eng" in Aliases0() && Aliases0()["eng"] == Some("en")
  {
  }

  lemma EngNotElsewhere1() ensures "eng" !in Aliases1() {}
  lemma EngNotElsewhere2() ensures "eng" !in Aliases2() {}
  lemma EngNotElsewhere3() ensures "eng" !in Aliases3() {}
  lemma EngNotElsewhere4() ensures "eng" !in Aliases4() {}

  /** An alias with spaces around it: " eng " resolves to "en". */
  lemma ResolveEng()
    ensures Resolve([' '] + "eng" + [' ']) == Resolution(Some("en"), UsingLanguage("eng"))
  {
    EngEntry();
    EngNotElsewhere1();
    EngNotElsewhere2();
    EngNotElsewhere3();
    EngNotElsewhere4();
    UnionLookup(Aliases0(), Aliases1(), "eng");
    UnionLookup(Aliases0() + Aliases1(), Aliases2(), "eng");
    UnionLookup(Aliases0() + Aliases1() + Aliases2(), Aliases3(), "eng");
    UnionLookup(Aliases0() + Aliases1() + Aliases2() + Aliases3(), Aliases4(), "eng");
    EngKey();
    ResolveByNormalisedKey([' '] + "eng" + [' ']);
  }

  /** "Auto" in any case means auto-detect, announced as such. */
  lemma ResolveAuto()
    ensures Resolve("Auto") == Resolution(None, AutoDetect)
  {
    AutoKey();
  }

  lemma KlingonAbsent0() ensures "klingon" !in FullNames0() {}
  lemma KlingonAbsent1() ensures "klingon" !in FullNames1() {}
  lemma KlingonAbsent2() ensures "klingon" !in FullNames2() {}
  lemma KlingonAbsent3() ensures "klingon" !in FullNames3() {}
  lemma KlingonNoAlias0() ensures "klingon" !in Aliases0() {}
  lemma KlingonNoAlias1() ensures "klingon" !in Aliases1() {}
  lemma KlingonNoAlias2() ensures "klingon" !in Aliases2() {}
  lemma KlingonNoAlias3() ensures "klingon" !in Aliases3() {}
  lemma KlingonNoAlias4() ensures "klingon" !in Aliases4() {}

  /** A key in neither operand of `+` is not in the union. */
  lemma AbsentFromUnion(a: map<string, Option<string>>, b: map<string, Option<string>>, k: string)
    ensures k !in a && k !in b ==> k !in a + b
  {
  }

  lemma KlingonNotFullName()
    ensures "klingon" !in SupportedLanguages()
  {
    KlingonAbsent0();
    KlingonAbsent1();
    KlingonAbsent2();
    KlingonAbsent3();
    AbsentFromUnion(FullNames0(), FullNames1(), "klingon");
    AbsentFromUnion(FullNames0() + FullNames1(), FullNames2(), "klingon");
    AbsentFromUnion(FullNames0() + FullNames1() + FullNames2(), FullNames3(), "klingon");
  }

  lemma KlingonNotAlias()
    ensures "klingon" !in LanguageAliases()
  {
    KlingonNoAlias0();
    KlingonNoAlias1();
    KlingonNoAlias2();
    KlingonNoAlias3();
    KlingonNoAlias4();
    AbsentFromUnion(Aliases0(), Aliases1(), "klingon");
    AbsentFromUnion(Aliases0() + Aliases1(), Aliases2(), "klingon");
    AbsentFromUnion(Aliases0() + Aliases1() + Aliases2(), Aliases3(), "klingon");
    AbsentFromUnion(Aliases0() + Aliases1() + Aliases2() + Aliases3(), Aliases4(), "klingon");
  }

  /** "klingon" is neither a full name nor an alias. */
  lemma KlingonUnknown()
    ensures "klingon" !in AllLanguages()
  {
    KlingonNotFullName();
    KlingonNotAlias();
    AbsentFromUnion(SupportedLanguages(), LanguageAliases(), "klingon");
  }

  /** A name no table knows falls back to auto-detect with a warning. */
  lemma ResolveKlingon()
    ensures Resolve("klingon") == Resolution(None, Unsupported("klingon"))
  {
    KlingonUnknown();
    KlingonKey();
    MergedTableShape();
  }
}
