/** Artifact naming. An upload `f` yields the colorized artifacts `f_eccv16.png`
    and `f_siggraph17.png`; filtering the artifact named by the `image` request
    parameter yields `<basename before its first '.'>_<filter>.png`. */
module Naming {

  const EccvSuffix := "_eccv16.png"
  const SiggraphSuffix := "_siggraph17.png"
  const Png := ".png"

  predicate EndsWithPng(name: string) {
    |name| >= |Png| && name[|name| - |Png|..] == Png
  }

  /** "", "." and ".." name a folder (the folder itself or its parent), never a file in it. */
  predicate IsFolderName(name: string) {
    name == "" || name == "." || name == ".."
  }

  /** A name ending in ".png" is never a folder name. */
  lemma PngNameIsFileName(name: string)
    requires EndsWithPng(name)
    ensures !IsFolderName(name)
  {
    assert |name| >= 4;
  }

  /** Name of the artifact written by the first colorization model. */
  function EccvName(filename: string): string {
    filename + EccvSuffix
  }

  /** Name of the artifact written by the second colorization model. */
  function SiggraphName(filename: string): string {
    filename + SiggraphSuffix
  }

  /** POSIX os.path.basename: the text after the last '/', all of it when there is none. */
  function Basename(path: string): string {
    if path == [] || path[|path| - 1] == '/' then []
    else Basename(path[..|path| - 1]) + [path[|path| - 1]]
  }

  /** Python's name.split('.')[0]: the text before the first '.', all of it when there is none. */
  function Stem(name: string): string {
    if name == [] || name[0] == '.' then [] else [name[0]] + Stem(name[1..])
  }

  /** The basename is the longest suffix of the path without a '/'. */
  lemma {:induction false} BasenameIsLastComponent(path: string)
    ensures '/' !in Basename(path)
    ensures |Basename(path)| <= |path| && Basename(path) == path[|path| - |Basename(path)|..]
    ensures |Basename(path)| < |path| ==> path[|path| - |Basename(path)| - 1] == '/'
    decreases |path|
  {
    if path != [] && path[|path| - 1] != '/' {
      var init := path[..|path| - 1];
      BasenameIsLastComponent(init);
      assert path == init + [path[|path| - 1]];
    }
  }

  /** The stem is the longest prefix of the name without a '.'. */
  lemma {:induction false} StemIsTextBeforeFirstDot(name: string)
    ensures '.' !in Stem(name)
    ensures |Stem(name)| <= |name| && Stem(name) == name[..|Stem(name)|]
    ensures |Stem(name)| < |name| ==> name[|Stem(name)|] == '.'
    decreases |name|
  {
    if name != [] && name[0] != '.' {
      StemIsTextBeforeFirstDot(name[1..]);
      assert name == [name[0]] + name[1..];
    }
  }

  /** Neither model suffix holds a '/'. */
  lemma SuffixesArePlain()
    ensures '/' !in EccvSuffix && '/' !in SiggraphSuffix
  {
    assert forall i :: 0 <= i < |EccvSuffix| ==> EccvSuffix[i] != '/';
    assert forall i :: 0 <= i < |SiggraphSuffix| ==> SiggraphSuffix[i] != '/';
  }

  /** Name of the artifact written by a filter request. */
  function FilteredName(image: string, filter: string): string {
    Stem(Basename(image)) + "_" + filter + Png
  }

  // ---------------------------------------------------------------------------
  // Colorized names

  /** Both colorized names keep the whole upload name (extension included) as a
      prefix, end in ".png", and differ from each other. */
  lemma ColorizedNames(filename: string)
    ensures EccvName(filename)[..|filename|] == filename && EndsWithPng(EccvName(filename))
    ensures SiggraphName(filename)[..|filename|] == filename && EndsWithPng(SiggraphName(filename))
    ensures EccvName(filename) != SiggraphName(filename)
  {
    assert |EccvName(filename)| != |SiggraphName(filename)|;
  }

  /** Neither model's artifact of one upload can be the other model's artifact of
      any upload: the two suffixes disagree in their last eleven characters. */
  lemma ColorizedNamesNeverCollide(f: string, g: string)
    ensures EccvName(f) != SiggraphName(g)
  {
    var a, b := EccvName(f), SiggraphName(g);
    assert a[|a| - 5] == '6';
    assert b[|b| - 5] == '7';
  }

  /** Distinct uploads get distinct colorized names. */
  lemma ColorizedNamesInjective(f: string, g: string)
    ensures EccvName(f) == EccvName(g) <==> f == g
    ensures SiggraphName(f) == SiggraphName(g) <==> f == g
  {
    if EccvName(f) == EccvName(g) {
      assert f == EccvName(f)[..|f|] == EccvName(g)[..|g|] == g;
    }
    if SiggraphName(f) == SiggraphName(g) {
      assert f == SiggraphName(f)[..|f|] == SiggraphName(g)[..|g|] == g;
    }
  }

  // ---------------------------------------------------------------------------
  // Basename and stem

  /** Appending text without '/' extends the basename by that text. */
  lemma {:induction false} BasenameAppend(path: string, tail: string)
    requires '/' !in tail
    ensures Basename(path + tail) == Basename(path) + tail
    decreases |tail|
  {
    if tail != [] {
      var init, last := tail[..|tail| - 1], tail[|tail| - 1];
      assert tail == init + [last];
      assert path + tail == (path + init) + [last];
      BasenameAppend(path, init);
    } else {
      assert path + tail == path;
    }
  }

  /** A name without '/' is its own basename. */
  lemma {:induction false} PlainNameIsBasename(name: string)
    requires '/' !in name
    ensures Basename(name) == name
  {
    BasenameAppend([], name);
    assert [] + name == name;
  }

  /** A directory prefix does not change the basename. */
  lemma {:induction false} BasenameIgnoresDirectory(dir: string, name: string)
    ensures Basename(dir + "/" + name) == Basename(name)
    decreases |name|
  {
    if name == [] {
      assert dir + "/" + name == dir + "/";
    } else {
      var init, last := name[..|name| - 1], name[|name| - 1];
      assert name == init + [last];
      assert dir + "/" + name == (dir + "/" + init) + [last];
      BasenameIgnoresDirectory(dir, init);
    }
  }

  /** The stem of a concatenation: the first part's stem when it holds a '.',
      otherwise the whole first part followed by the stem of the second. */
  lemma {:induction false} StemAppend(s: string, t: string)
    ensures '.' in s ==> Stem(s + t) == Stem(s)
    ensures '.' !in s ==> Stem(s + t) == s + Stem(t)
  {
    if s != [] {
      assert (s + t)[1..] == s[1..] + t;
      StemAppend(s[1..], t);
      if s[0] != '.' {
        assert '.' in s <==> '.' in s[1..];
      }
    } else {
      assert s + t == t;
    }
  }

  // ---------------------------------------------------------------------------
  // Filtered names

  /** Any directory prefix in the `image` parameter is ignored. */
  lemma FilteredNameIgnoresDirectory(dir: string, image: string, filter: string)
    ensures FilteredName(dir + "/" + image, filter) == FilteredName(image, filter)
  {
    BasenameIgnoresDirectory(dir, image);
  }

  /** A filtered name holds no '/' (it stays in the processed folder), and when the
      filter name holds no '.', the only '.' is the one of the final ".png". */
  lemma FilteredNameShape(image: string, filter: string)
    requires '.' !in filter && '/' !in filter
    ensures '/' !in FilteredName(image, filter) && EndsWithPng(FilteredName(image, filter))
    ensures forall i :: 0 <= i < |FilteredName(image, filter)| - |Png| ==> FilteredName(image, filter)[i] != '.'
  {
    var stem := Stem(Basename(image));
    var r := FilteredName(image, filter);
    BasenameIsLastComponent(image);
    StemIsTextBeforeFirstDot(Basename(image));
    assert '/' !in stem by {
      forall i | 0 <= i < |stem| ensures stem[i] != '/' {
        assert stem[i] == Basename(image)[i];
      }
    }
    assert r == stem + ("_" + filter + Png);
    forall i | 0 <= i < |r| - |Png| ensures r[i] != '.' {
      if i < |stem| {
        assert r[i] == stem[i];
      } else if i > |stem| {
        assert r[i] == filter[i - |stem| - 1];
      }
    }
  }

  /** The stem ends at the first '.'. */
  lemma StemAtFirstDot(name: string, k: nat)
    requires k < |name| && name[k] == '.' && '.' !in name[..k]
    ensures Stem(name) == name[..k]
  {
    var r := Stem(name);
    StemIsTextBeforeFirstDot(name);
    assert forall i :: 0 <= i < |r| ==> r[i] == name[i];
    assert forall i :: 0 <= i < k ==> name[i] != '.' by {
      forall i | 0 <= i < k ensures name[i] != '.' { assert name[..k][i] == name[i]; }
    }
  }

  lemma ModelTagStems()
    ensures Stem(EccvSuffix) == "_eccv16"
    ensures Stem(SiggraphSuffix) == "_siggraph17"
  {
    assert Stem(EccvSuffix) == "_eccv16" by {
      assert forall i :: 0 <= i < 7 ==> EccvSuffix[i] != '.';
      StemAtFirstDot(EccvSuffix, 7);
    }
    assert Stem(SiggraphSuffix) == "_siggraph17" by {
      assert forall i :: 0 <= i < 11 ==> SiggraphSuffix[i] != '.';
      StemAtFirstDot(SiggraphSuffix, 11);
    }
  }

  /** Names built from one basename with the two different model tags differ. */
  lemma ModelTaggedNamesDiffer(base: string, filter: string)
    ensures base + "_eccv16" + "_" + filter + Png != base + "_siggraph17" + "_" + filter + Png
  {
    var e := base + "_eccv16" + "_" + filter + Png;
    var s := base + "_siggraph17" + "_" + filter + Png;
    assert e[|base| + 1] == 'e';
    assert s[|base| + 1] == 's';
  }

  /** With a '.' in the upload's basename, both colorized artifacts filter to the
      name built from the text before that '.'. */
  lemma FilteredColorizedNameWithDot(filename: string, suffix: string, filter: string)
    requires '/' !in suffix && '.' in Basename(filename)
    ensures FilteredName(filename + suffix, filter) == Stem(Basename(filename)) + "_" + filter + Png
  {
    BasenameAppend(filename, suffix);
    StemAppend(Basename(filename), suffix);
  }

  /** Without a '.' in the upload's basename, the model tag survives filtering. */
  lemma FilteredColorizedNameWithoutDot(filename: string, suffix: string, filter: string)
    requires '/' !in suffix && '.' !in Basename(filename)
    ensures FilteredName(filename + suffix, filter) == Basename(filename) + Stem(suffix) + "_" + filter + Png
  {
    BasenameAppend(filename, suffix);
    StemAppend(Basename(filename), suffix);
  }

  /** Filtering drops the model tag: the eccv16 and siggraph17 artifacts of one
      upload get the same filtered name exactly when the upload's basename holds
      a '.', and that name is then built from the text before that '.'. */
  lemma FilteringDropsModelTag(filename: string, filter: string)
    ensures FilteredName(EccvName(filename), filter) == FilteredName(SiggraphName(filename), filter)
            <==> '.' in Basename(filename)
    ensures '.' in Basename(filename) ==>
            FilteredName(EccvName(filename), filter) == Stem(Basename(filename)) + "_" + filter + Png
  {
    var base := Basename(filename);
    if '.' in base {
      FilteredColorizedNameWithDot(filename, EccvSuffix, filter);
      FilteredColorizedNameWithDot(filename, SiggraphSuffix, filter);
    } else {
      FilteredColorizedNameWithoutDot(filename, EccvSuffix, filter);
      FilteredColorizedNameWithoutDot(filename, SiggraphSuffix, filter);
      ModelTagStems();
      ModelTaggedNamesDiffer(base, filter);
    }
  }
}
