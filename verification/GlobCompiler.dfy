/** `globToRegExp` and `buildGlobMatcher`: the loops, proved against the
    meaning of globs. */
module GlobCompiler {
  import opened Base
  import opened Globs
  import opened GlobMeaning
  import Paths

  /** The glob is well formed and means a set of paths that `path` is in. */
  predicate Means(glob: string, path: string) {
    ParseGlob(glob, false).Read? && GlobMatches(ParseGlob(glob, false).value, path)
  }

  /** The same with each `**` held to one line. */
  predicate MeansInLine(glob: string, path: string) {
    ParseGlob(glob, false).Read? && GlobMatchesInLine(ParseGlob(glob, false).value, path)
  }

  /** A regular expression there is exactly when the glob is well formed; it has the
      glob's tree, matches the paths the glob means with each `**` held to one line,
      and of the newline-free paths those the glob means. */
  ghost predicate SameMeaning(re: Option<Pattern>, glob: string) {
    && (re.Some? <==> ParseGlob(glob, false).Read?)
    && (re.Some? ==> re.value == ToPattern(ParseGlob(glob, false).value))
    && (re.Some? ==> forall path :: PatternMatches(re.value, path) <==> MeansInLine(glob, path))
    && (re.Some? ==> forall path :: NewlineFree(path) ==> (PatternMatches(re.value, path) <==> Means(glob, path)))
  }

  lemma CompiledMeaning(glob: string)
    ensures SameMeaning(RegExpOf("^" + Emit(glob, 0) + "$"), glob)
  {
    CompiledTextReads(glob);
    var re := RegExpOf("^" + Emit(glob, 0) + "$");
    forall path | re.Some?
      ensures PatternMatches(re.value, path) <==> MeansInLine(glob, path)
      ensures NewlineFree(path) ==> (PatternMatches(re.value, path) <==> Means(glob, path))
    {
      CompiledGlobMeansGlob(glob, path);
    }
  }

  /** The compiled text is a regular expression exactly when the glob is well
      formed, and then matches the newline-free paths the glob means. */
  method GlobToRegExp(glob: string) returns (source: string)
    ensures source == "^" + Emit(glob, 0) + "$"
    ensures SameMeaning(RegExpOf(source), glob)
  {
    var out := Translate(glob);
    source := "^" + out + "$";
    CompiledMeaning(glob);
  }

  // ----------------------------------------------------- a list of globs

  datatype Matcher = Everything | Filter(includes: seq<Pattern>, excludes: seq<Pattern>)

  predicate SomeMatches(patterns: seq<Pattern>, path: string) {
    exists k :: 0 <= k < |patterns| && PatternMatches(patterns[k], path)
  }

  predicate Accepts(m: Matcher, path: string) {
    m.Everything? || (!SomeMatches(m.excludes, path) && (m.includes == [] || SomeMatches(m.includes, path)))
  }

  predicate IsExclusion(raw: string) {
    Paths.Trim(raw) != "" && Paths.Trim(raw)[0] == '!'
  }

  predicate IsInclusion(raw: string) {
    Paths.Trim(raw) != "" && Paths.Trim(raw)[0] != '!'
  }

  predicate SomeMeans(globs: seq<string>, path: string) {
    exists k :: 0 <= k < |globs| && Means(globs[k], path)
  }

  predicate SomeMeansInLine(globs: seq<string>, path: string) {
    exists k :: 0 <= k < |globs| && MeansInLine(globs[k], path)
  }

  /** The texts to compile, in list order: the exclusions without their `!`. */
  function Texts(globs: seq<string>, exclusions: bool): seq<string> {
    if globs == [] then []
    else
      var raw := globs[|globs| - 1];
      Texts(globs[..|globs| - 1], exclusions)
      + if exclusions && IsExclusion(raw) then [Paths.Trim(raw)[1..]]
        else if !exclusions && IsInclusion(raw) then [Paths.Trim(raw)]
        else []
  }

  predicate AllParse(texts: seq<string>) {
    forall k :: 0 <= k < |texts| ==> ParseGlob(texts[k], false).Read?
  }

  ghost predicate Compiled(patterns: seq<Pattern>, texts: seq<string>) {
    AllParse(texts) && |patterns| == |texts|
    && forall k :: 0 <= k < |texts| ==> patterns[k] == ToPattern(ParseGlob(texts[k], false).value)
  }

  lemma CompiledMeans(patterns: seq<Pattern>, texts: seq<string>, path: string)
    requires Compiled(patterns, texts)
    ensures SomeMatches(patterns, path) <==> SomeMeansInLine(texts, path)
    ensures NewlineFree(path) ==> (SomeMeansInLine(texts, path) <==> SomeMeans(texts, path))
  {
    forall k | 0 <= k < |texts|
      ensures PatternMatches(patterns[k], path) <==> MeansInLine(texts[k], path)
      ensures NewlineFree(path) ==> (MeansInLine(texts[k], path) <==> Means(texts[k], path))
    {
      PatternMeaning(ParseGlob(texts[k], false).value, path);
      GlobInLine(ParseGlob(texts[k], false).value, path);
    }
    if SomeMatches(patterns, path) {
      var k :| 0 <= k < |patterns| && PatternMatches(patterns[k], path);
      assert MeansInLine(texts[k], path);
    }
    if SomeMeansInLine(texts, path) {
      var k :| 0 <= k < |texts| && MeansInLine(texts[k], path);
      assert PatternMatches(patterns[k], path);
      assert NewlineFree(path) ==> Means(texts[k], path);
    }
    if NewlineFree(path) && SomeMeans(texts, path) {
      var k :| 0 <= k < |texts| && Means(texts[k], path);
      assert MeansInLine(texts[k], path);
    }
  }

  /** What the matcher must accept: the paths no exclusion means and, if there is an
      inclusion at all, some inclusion means; with each `**` held to one line. */
  predicate WantedInLine(globs: seq<string>, path: string) {
    && !SomeMeansInLine(Texts(globs, true), path)
    && (Texts(globs, false) == [] || SomeMeansInLine(Texts(globs, false), path))
  }

  /** The same by the plain meaning. */
  predicate Wanted(globs: seq<string>, path: string) {
    && !SomeMeans(Texts(globs, true), path)
    && (Texts(globs, false) == [] || SomeMeans(Texts(globs, false), path))
  }

  ghost predicate AcceptsWanted(m: Matcher, globs: seq<string>) {
    && (forall path :: Accepts(m, path) <==> WantedInLine(globs, path))
    && (forall path :: NewlineFree(path) ==> (Accepts(m, path) <==> Wanted(globs, path)))
  }

  lemma FilterAccepts(globs: seq<string>, includes: seq<Pattern>, excludes: seq<Pattern>)
    requires Compiled(includes, Texts(globs, false)) && Compiled(excludes, Texts(globs, true))
    ensures AcceptsWanted(Filter(includes, excludes), globs)
  {
    forall path
      ensures Accepts(Filter(includes, excludes), path) <==> WantedInLine(globs, path)
      ensures NewlineFree(path) ==> (Accepts(Filter(includes, excludes), path) <==> Wanted(globs, path))
    {
      CompiledMeans(excludes, Texts(globs, true), path);
      CompiledMeans(includes, Texts(globs, false), path);
    }
  }

  lemma EverythingAccepts()
    ensures AllParse(Texts([], true)) && AllParse(Texts([], false)) && AcceptsWanted(Everything, [])
  {
  }

  /** One more glob that compiles. */
  lemma CompiledOn(patterns: seq<Pattern>, texts: seq<string>, re: Pattern, text: string)
    requires Compiled(patterns, texts) && ParseGlob(text, false).Read? && re == ToPattern(ParseGlob(text, false).value)
    ensures Compiled(patterns + [re], texts + [text])
  {
  }

  lemma TextsStep(globs: seq<string>, i: nat, exclusions: bool)
    requires i < |globs|
    ensures Texts(globs[..i + 1], exclusions) == Texts(globs[..i], exclusions)
            + if exclusions && IsExclusion(globs[i]) then [Paths.Trim(globs[i])[1..]]
              else if !exclusions && IsInclusion(globs[i]) then [Paths.Trim(globs[i])]
              else []
  {
    assert globs[..i + 1][..i] == globs[..i];
  }

  /** None when a glob's regular expression is refused. */
  method BuildGlobMatcher(globs: seq<string>) returns (m: Option<Matcher>)
    ensures m.Some? <==> AllParse(Texts(globs, true)) && AllParse(Texts(globs, false))
    ensures m.Some? ==> AcceptsWanted(m.value, globs)
  {
    if globs == [] {
      EverythingAccepts();
      return Some(Everything);
    }
    var includes, excludes := [], [];
    for i := 0 to |globs|
      invariant Compiled(includes, Texts(globs[..i], false)) && Compiled(excludes, Texts(globs[..i], true))
    {
      var glob := Paths.Trim(globs[i]);
      TextsStep(globs, i, true);
      TextsStep(globs, i, false);
      if glob == "" { continue; }
      var text := if glob[0] == '!' then glob[1..] else glob;
      var source := GlobToRegExp(text);
      var re := RegExpOf(source);
      if re.None? {
        RefusedText(globs, i, glob[0] == '!', text);
        return None;
      }
      if glob[0] == '!' {
        CompiledOn(excludes, Texts(globs[..i], true), re.value, text);
        excludes := excludes + [re.value];
      } else {
        CompiledOn(includes, Texts(globs[..i], false), re.value, text);
        includes := includes + [re.value];
      }
    }
    assert globs[..|globs|] == globs;
    FilterAccepts(globs, includes, excludes);
    return Some(Filter(includes, excludes));
  }

  lemma RefusedText(globs: seq<string>, i: nat, exclusions: bool, text: string)
    requires i < |globs| && ParseGlob(text, false).Bad?
    requires Texts(globs[..i + 1], exclusions) == Texts(globs[..i], exclusions) + [text]
    ensures !AllParse(Texts(globs, exclusions))
  {
    var texts := Texts(globs[..i + 1], exclusions);
    assert ParseGlob(texts[|texts| - 1], false).Bad?;
    TextsAreKept(globs, i + 1, exclusions);
  }

  lemma {:induction false} TextsAreKept(globs: seq<string>, n: nat, exclusions: bool)
    requires n <= |globs| && !AllParse(Texts(globs[..n], exclusions))
    ensures !AllParse(Texts(globs, exclusions))
    decreases |globs| - n
  {
    if n == |globs| {
      assert globs[..n] == globs;
    } else {
      assert globs[..n + 1][..n] == globs[..n];
      var before, after := Texts(globs[..n], exclusions), Texts(globs[..n + 1], exclusions);
      var k :| 0 <= k < |before| && ParseGlob(before[k], false).Bad?;
      assert after[k] == before[k];
      TextsAreKept(globs, n + 1, exclusions);
    }
  }
}
