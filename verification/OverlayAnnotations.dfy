/** The layers of an overlay, read from the annotations of a bundle
    (src/rootfs/overlay.rs, `from_annotations`). */
module OverlayAnnotations {
  import opened Wrappers
  import opened OverlayOptions
  import opened OverlayMount

  datatype AnnotationError = LowerMissing | LowerEmpty

  predicate IsBlank(s: string) {
    forall c :: c in s ==> c in {' ', '\t', '\n', '\r', 11 as char, 12 as char}
  }

  const LOWERDIR := "dev.mars.overlay.lowerdir"
  const UPPERDIR := "dev.mars.overlay.upperdir"
  const WORKDIR := "dev.mars.overlay.workdir"

  type Annotations = map<string, string>

  function Get(annotations: Annotations, key: string): Option<string> {
    if key in annotations then Some(annotations[key]) else None
  }

  /** Directories are taken relative to the bundle; only the lower value is split and unescaped. */
  function FromAnnotations(annotations: Annotations, bundle: Path)
    : Result<Option<Layers<Path>>, AnnotationError>
  {
    var lower, upper, work := Get(annotations, LOWERDIR), Get(annotations, UPPERDIR), Get(annotations, WORKDIR);
    if lower.None? || IsBlank(lower.value) then
      if upper.Some? || work.Some? then Err(LowerMissing) else Ok(None)
    else
      var dirs := ResolveAll(bundle, SplitLowerdir(lower.value));
      if dirs == [] then Err(LowerEmpty)
      else Ok(Some(Layers(dirs, ResolveOptional(bundle, upper), ResolveOptional(bundle, work))))
  }

  lemma {:induction false} ParsedNamesAreRelative(s: string, current: string)
    requires '/' !in current
    ensures IsRelative(ParseNames(s, current))
  {
    if s != "" {
      if s[0] == '/' {
        ParsedNamesAreRelative(s[1..], "");
      } else {
        ParsedNamesAreRelative(s[1..], current + [s[0]]);
      }
    }
  }

  lemma ResolvedIsAbsolute(bundle: Path, text: string)
    requires IsAbsolute(bundle)
    ensures IsAbsolute(Resolve(bundle, text))
  {
    if text != "" && text[0] == '/' {
      ParsedNamesAreRelative(text[1..], "");
      assert ParsePath(text)[1..] == ParseNames(text[1..], "");
    } else {
      ParsedNamesAreRelative(text, "");
      assert (bundle + ParsePath(text))[1..] == bundle[1..] + ParsePath(text);
    }
  }

  lemma {:induction false} ResolvedAreAbsolute(bundle: Path, texts: seq<string>)
    requires IsAbsolute(bundle)
    ensures forall i :: 0 <= i < |ResolveAll(bundle, texts)| ==> IsAbsolute(ResolveAll(bundle, texts)[i])
  {
    if texts != [] {
      ResolvedIsAbsolute(bundle, texts[0]);
      ResolvedAreAbsolute(bundle, texts[1..]);
    }
  }

  /** Whatever the annotations contain, the layers handed to `mount_at` are absolute and there is at
      least one lower layer. */
  lemma AnnotationsAreWellFormed(annotations: Annotations, bundle: Path)
    requires IsAbsolute(bundle)
    requires FromAnnotations(annotations, bundle).Ok?
    requires FromAnnotations(annotations, bundle).value.Some?
    ensures WellFormed(FromAnnotations(annotations, bundle).value.value)
  {
    ResolvedAreAbsolute(bundle, SplitLowerdir(annotations[LOWERDIR]));
    if UPPERDIR in annotations { ResolvedIsAbsolute(bundle, annotations[UPPERDIR]); }
    if WORKDIR in annotations { ResolvedIsAbsolute(bundle, annotations[WORKDIR]); }
  }

  /** How layers are written into the annotations of a bundle: only the lower directories are escaped. */
  function Annotated(layers: Layers<Path>): Annotations {
    map["dev.mars.overlay.lowerdir" := Join(OnePassAll(TextAll(layers.lower)), ':')]
    + (if layers.upper.Some? then map["dev.mars.overlay.upperdir" := Text(layers.upper.value)] else map[])
    + (if layers.work.Some? then map["dev.mars.overlay.workdir" := Text(layers.work.value)] else map[])
  }

  /** Layers of absolute directories come back from the annotations, whatever colons and backslashes their
      names contain, and whatever else is annotated. */
  lemma LowerAnnotationRoundTrip(layers: Layers<Path>, others: Annotations, bundle: Path)
    requires WellFormed(layers)
    requires LOWERDIR !in others && UPPERDIR !in others && WORKDIR !in others
    ensures FromAnnotations(others + Annotated(layers), bundle) == Ok(Some(layers))
  {
    AllPathsMembers(layers);
    LowerHasASlash(layers.lower);
    DirectoriesComeBack(layers.lower, bundle);
    var lower := Join(OnePassAll(TextAll(layers.lower)), ':');
    ThreeKeys(layers, others);
    assert !IsBlank(lower);
    if layers.upper.Some? { PathRoundTrip(layers.upper.value); }
    if layers.work.Some? { PathRoundTrip(layers.work.value); }
  }

  lemma ThreeKeys(layers: Layers<Path>, others: Annotations)
    requires LOWERDIR !in others && UPPERDIR !in others && WORKDIR !in others
    ensures var all := others + Annotated(layers);
            && Get(all, LOWERDIR) == Some(Join(OnePassAll(TextAll(layers.lower)), ':'))
            && Get(all, UPPERDIR) == TextOptional(layers.upper)
            && Get(all, WORKDIR) == TextOptional(layers.work)
  {
    DifferentKeys();
  }

  lemma DifferentKeys()
    ensures LOWERDIR != UPPERDIR && UPPERDIR != WORKDIR && LOWERDIR != WORKDIR
  {
    assert LOWERDIR[17] == 'l' && UPPERDIR[17] == 'u' && WORKDIR[17] == 'w';
  }

  lemma DirectoriesComeBack(paths: seq<Path>, bundle: Path)
    requires forall i :: 0 <= i < |paths| ==> IsAbsolute(paths[i])
    ensures ResolveAll(bundle, SplitLowerdir(Join(OnePassAll(TextAll(paths)), ':'))) == paths
  {
    LowerRoundTrip(TextAll(paths));
    ResolveAbsolute(bundle, paths);
    NonEmptyKeeps(TextAll(paths));
  }

  lemma LowerHasASlash(paths: seq<Path>)
    requires paths != [] && IsAbsolute(paths[0])
    ensures '/' in Join(OnePassAll(TextAll(paths)), ':')
  {
    PathRoundTrip(paths[0]);
    var first := OnePass(Text(paths[0]));
    assert first[0] == '/';
    var all := OnePassAll(TextAll(paths));
    assert all[0] == first;
    assert Join(all, ':')[0] == '/';
  }
}
