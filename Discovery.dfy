/**
 * `list_audio_files`: the names of a directory listing whose lower-cased
 * form ends with one of the audio and video extensions, in listing order.
 * The listing is an input; reading the directory is not modelled.
 */
module Discovery {
  import opened Wrappers
  import opened Text

  /** The default `extensions` list. */
  const AudioExtensions: seq<string> := [".mp3", ".wav", ".m4a", ".flac", ".mp4", ".mkv", ".aac", ".ogg"]

  /** `any(filename.lower().endswith(ext) for ext in extensions)`. */
  predicate HasExtension(name: string, extensions: seq<string>) {
    exists i :: 0 <= i < |extensions| && EndsWith(Lower(name), extensions[i])
  }

  /** The extensions used: the given list, or the default one for `None`. */
  function ExtensionsOrDefault(extensions: Option<seq<string>>): (r: seq<string>)
    ensures extensions.None? ==> r == AudioExtensions
    ensures extensions.Some? ==> r == extensions.value
  {
    if extensions.None? then AudioExtensions else extensions.value
  }

  /** The names of `listing` that have one of `extensions`, in listing
      order. */
  function Filter(listing: seq<string>, extensions: seq<string>): seq<string>
    decreases |listing|
  {
    if listing == [] then []
    else
      var name := listing[|listing| - 1];
      Filter(listing[..|listing| - 1], extensions) + (if HasExtension(name, extensions) then [name] else [])
  }

  /** The loop of `list_audio_files`: appends every listed name that has one
      of the extensions. */
  method ListAudioFiles(listing: seq<string>, extensions: Option<seq<string>>) returns (files: seq<string>)
    ensures files == Filter(listing, ExtensionsOrDefault(extensions))
  {
    var exts := ExtensionsOrDefault(extensions);
    files := [];
    var i := 0;
    while i < |listing|
      invariant 0 <= i <= |listing|
      invariant files == Filter(listing[..i], exts)
    {
      var filename := listing[i];
      assert listing[..i + 1][..i] == listing[..i];
      if HasExtension(filename, exts) {
        files := files + [filename];
      }
      i := i + 1;
    }
    assert listing[..i] == listing;
  }

  /** Filtering a listing made of two parts filters each part and keeps
      their order. */
  lemma {:induction false} FilterAppend(a: seq<string>, b: seq<string>, extensions: seq<string>)
    ensures Filter(a + b, extensions) == Filter(a, extensions) + Filter(b, extensions)
    decreases |b|
  {
    if b == [] {
      assert a + b == a;
    } else {
      var init := b[..|b| - 1];
      assert (a + b)[..|a + b| - 1] == a + init;
      FilterAppend(a, init, extensions);
    }
  }

  /** A name is kept as often as it is listed when it has one of the
      extensions, and never otherwise. */
  lemma {:induction false} FilterCount(listing: seq<string>, extensions: seq<string>, name: string)
    ensures multiset(Filter(listing, extensions))[name]
         == if HasExtension(name, extensions) then multiset(listing)[name] else 0
    decreases |listing|
  {
    if listing != [] {
      var init := listing[..|listing| - 1];
      var last := listing[|listing| - 1];
      FilterCount(init, extensions, name);
      assert listing == init + [last];
    }
  }

  /** The result lists exactly the listed names that have one of the
      extensions. */
  lemma FilterMembership(listing: seq<string>, extensions: seq<string>, name: string)
    ensures name in Filter(listing, extensions) <==> name in listing && HasExtension(name, extensions)
  {
    FilterCount(listing, extensions, name);
    assert name in listing <==> multiset(listing)[name] > 0;
    assert name in Filter(listing, extensions) <==> multiset(Filter(listing, extensions))[name] > 0;
  }

  /** `xs` is `ys` with some elements left out and the rest in order. */
  predicate IsSubsequence(xs: seq<string>, ys: seq<string>)
    decreases |ys|
  {
    if xs == [] then true
    else if ys == [] then false
    else if xs[|xs| - 1] == ys[|ys| - 1] then IsSubsequence(xs[..|xs| - 1], ys[..|ys| - 1])
    else IsSubsequence(xs, ys[..|ys| - 1])
  }

  /** A subsequence stays one when the longer sequence grows. */
  lemma {:induction false} SubsequenceExtend(xs: seq<string>, ys: seq<string>, y: string)
    requires IsSubsequence(xs, ys)
    ensures IsSubsequence(xs, ys + [y])
    decreases |ys|, 1
  {
    var zs := ys + [y];
    assert zs[..|zs| - 1] == ys;
    if xs != [] && xs[|xs| - 1] == y {
      SubsequenceOfInit(xs, ys);
    }
  }

  /** Dropping the last element of a subsequence keeps a subsequence. */
  lemma {:induction false} SubsequenceOfInit(xs: seq<string>, ys: seq<string>)
    requires xs != [] && IsSubsequence(xs, ys)
    ensures IsSubsequence(xs[..|xs| - 1], ys)
    decreases |ys|, 0
  {
    var init := xs[..|xs| - 1];
    if init != [] {
      var ysInit := ys[..|ys| - 1];
      if xs[|xs| - 1] == ys[|ys| - 1] {
        SubsequenceExtend(init, ysInit, ys[|ys| - 1]);
        assert ysInit + [ys[|ys| - 1]] == ys;
      } else {
        SubsequenceOfInit(xs, ysInit);
        SubsequenceExtend(init, ysInit, ys[|ys| - 1]);
        assert ysInit + [ys[|ys| - 1]] == ys;
      }
    }
  }

  /** The kept names are a subsequence of the listing: nothing is added and
      the listing order is kept. */
  lemma {:induction false} FilterSubsequence(listing: seq<string>, extensions: seq<string>)
    ensures IsSubsequence(Filter(listing, extensions), listing)
    decreases |listing|
  {
    if listing != [] {
      var init := listing[..|listing| - 1];
      var last := listing[|listing| - 1];
      FilterSubsequence(init, extensions);
      var kept := Filter(init, extensions);
      if HasExtension(last, extensions) {
        assert Filter(listing, extensions) == kept + [last];
        assert (kept + [last])[..|kept|] == kept;
      } else {
        assert Filter(listing, extensions) == kept;
        SubsequenceExtend(kept, init, last);
        assert init + [last] == listing;
      }
    }
  }

  /** The extension test is case-insensitive: "a.MP3" is an audio file. */
  lemma UpperCaseExtensionKept()
    ensures HasExtension("a.MP3", AudioExtensions)
  {
    assert Lower("a.MP3") == "a.mp3";
    assert EndsWith(Lower("a.MP3"), AudioExtensions[0]);
  }

  /** A text file is not. */
  lemma TextFileDropped()
    ensures !HasExtension("b.txt", AudioExtensions)
  {
    assert Lower("b.txt") == "b.txt";
  }

  /** A listing of one name keeps it exactly when it has an extension. */
  lemma FilterSingle(name: string, extensions: seq<string>)
    ensures Filter([name], extensions) == if HasExtension(name, extensions) then [name] else []
  {
    assert [name][..0] == [];
  }

  lemma WaveFileKept()
    ensures HasExtension("c.wav", AudioExtensions)
  {
    assert Lower("c.wav") == "c.wav";
    assert EndsWith(Lower("c.wav"), AudioExtensions[1]);
  }

  /** Of three names, the first and last of which have an extension and
      the middle one has none, the first and last are kept, in order. */
  lemma FilterKeepsOuter(x: string, y: string, z: string, extensions: seq<string>)
    requires HasExtension(x, extensions) && !HasExtension(y, extensions) && HasExtension(z, extensions)
    ensures Filter([x, y, z], extensions) == [x, z]
  {
    assert [x, y, z][..2] == [x, y];
    assert [x, y][..1] == [x];
    FilterSingle(x, extensions);
    assert Filter([x, y], extensions) == [x];
  }

  /** "a.MP3", "b.txt", "c.wav" lists "a.MP3" and "c.wav", in that order. */
  lemma ListingExample()
    ensures Filter(["a.MP3", "b.txt", "c.wav"], AudioExtensions) == ["a.MP3", "c.wav"]
  {
    UpperCaseExtensionKept();
    TextFileDropped();
    WaveFileKept();
    FilterKeepsOuter("a.MP3", "b.txt", "c.wav", AudioExtensions);
  }

  /** A file named just ".mp3" is listed too. */
  lemma DotFileListed()
    ensures Filter([".mp3"], AudioExtensions) == [".mp3"]
  {
    assert Lower(".mp3") == ".mp3";
    assert EndsWith(Lower(".mp3"), AudioExtensions[0]);
    FilterSingle(".mp3", AudioExtensions);
  }
}
