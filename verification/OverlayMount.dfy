/** Fitting an overlay mount into the 4096 bytes the kernel reads, by making every layer relative
    to the deepest directory that contains them all (src/rootfs/overlay.rs, `common_parent`,
    `relative_to`, `mount_at`). */
module OverlayMount {
  import opened Wrappers
  import opened OverlayOptions
  import opened OverlayCut

  const MAX_OPTION_BYTES := 4096

  // ----- paths

  datatype Component = RootDir | Normal(name: string)

  type Path = seq<Component>

  predicate IsName(s: string) {
    s != "" && '/' !in s
  }

  predicate IsRelative(p: Path) {
    forall i :: 0 <= i < |p| ==> p[i].Normal? && IsName(p[i].name)
  }

  predicate IsAbsolute(p: Path) {
    p != [] && p[0].RootDir? && IsRelative(p[1..])
  }

  /** `Path::parent`: None for the root and for the empty path. */
  function Parent(p: Path): Option<Path> {
    if p == [] || p[|p| - 1].RootDir? then None else Some(p[..|p| - 1])
  }

  function Names(p: Path): string {
    if p == [] then ""
    else
      var name := if p[0].Normal? then p[0].name else "";
      if |p| == 1 then name else name + "/" + Names(p[1..])
  }

  function Text(p: Path): string {
    if p != [] && p[0].RootDir? then "/" + Names(p[1..]) else Names(p)
  }

  /** The components of a printed path; empty names between slashes do not count. */
  function ParseNames(s: string, current: string): Path {
    var last := if current == "" then [] else [Normal(current)];
    if s == "" then last
    else if s[0] == '/' then last + ParseNames(s[1..], "")
    else ParseNames(s[1..], current + [s[0]])
  }

  function ParsePath(s: string): Path {
    if s != "" && s[0] == '/' then [RootDir] + ParseNames(s[1..], "") else ParseNames(s, "")
  }

  lemma {:induction false} ParseNamesOf(name: string, rest: string, current: string)
    requires '/' !in name
    ensures ParseNames(name + rest, current) == ParseNames(rest, current + name)
  {
    if name == "" {
      assert name + rest == rest && current + name == current;
    } else {
      assert (name + rest)[1..] == name[1..] + rest;
      ParseNamesOf(name[1..], rest, current + [name[0]]);
      assert current + [name[0]] + name[1..] == current + name;
    }
  }

  lemma ParseOneName(name: string, more: string)
    requires IsName(name)
    ensures ParseNames(name, "") == [Normal(name)]
    ensures ParseNames(name + "/" + more, "") == [Normal(name)] + ParseNames(more, "")
  {
    assert "" + name == name && name + "" == name;
    ParseNamesOf(name, "", "");
    var rest := "/" + more;
    ParseNamesOf(name, rest, "");
    assert name + "/" + more == name + rest;
    assert rest[1..] == more;
  }

  lemma {:induction false} ParseNamesOfText(p: Path)
    requires IsRelative(p)
    ensures ParseNames(Names(p), "") == p
    ensures p != [] ==> Names(p) != "" && Names(p)[0] != '/'
  {
    if p != [] {
      var name := p[0].name;
      ParseOneName(name, Names(p[1..]));
      assert p == [Normal(name)] + p[1..];
      if |p| > 1 {
        ParseNamesOfText(p[1..]);
        assert Names(p)[0] == name[0];
      }
    }
  }

  lemma PathRoundTrip(p: Path)
    requires IsAbsolute(p) || IsRelative(p)
    ensures ParsePath(Text(p)) == p
    ensures p != [] ==> (IsAbsolute(p) <==> Text(p) != "" && Text(p)[0] == '/') && Text(p) != ""
  {
    if p != [] && p[0].RootDir? {
      ParseNamesOfText(p[1..]);
      assert Text(p)[1..] == Names(p[1..]);
      assert p == [RootDir] + p[1..];
    } else {
      ParseNamesOfText(p);
    }
  }

  // ----- the deepest common parent

  function CommonPrefix(a: Path, b: Path): (shared: Path)
    ensures shared <= a && shared <= b
    ensures |shared| < |a| && |shared| < |b| ==> a[|shared|] != b[|shared|]
  {
    if a == [] || b == [] || a[0] != b[0] then []
    else
      var rest := CommonPrefix(a[1..], b[1..]);
      assert a == [a[0]] + a[1..] && b == [b[0]] + b[1..];
      [a[0]] + rest
  }

  /** `zip`, `take_while` and `count` over two component lists. */
  method MatchingComponents(a: Path, b: Path) returns (keep: nat)
    ensures keep == |CommonPrefix(a, b)|
  {
    keep := 0;
    while keep < |a| && keep < |b| && a[keep] == b[keep]
      invariant keep <= |a| && keep <= |b| && a[..keep] == b[..keep]
    {
      keep := keep + 1;
    }
    PrefixLengthIsUnique(a, b, keep);
  }

  lemma PrefixLengthIsUnique(a: Path, b: Path, n: nat)
    requires n <= |a| && n <= |b| && a[..n] == b[..n]
    requires n < |a| && n < |b| ==> a[n] != b[n]
    ensures n == |CommonPrefix(a, b)|
  {
  }

  function AllPaths(layers: Layers<Path>): seq<Path> {
    layers.lower
    + (if layers.upper.Some? then [layers.upper.value] else [])
    + (if layers.work.Some? then [layers.work.value] else [])
  }

  /** Every path has a parent that starts with `base`. */
  ghost predicate IsBase(base: Path, paths: seq<Path>) {
    forall i :: 0 <= i < |paths| ==> Parent(paths[i]).Some? && base <= Parent(paths[i]).value
  }

  /** The result is a directory above every layer, and every other such directory is above it. */
  method CommonParent(layers: Layers<Path>) returns (base: Option<Path>)
    ensures var all := AllPaths(layers);
            base.Some? ==>
              && IsBase(base.value, all) && base.value != [] && base.value[0].RootDir?
              && all != []
              && forall other :: IsBase(other, all) ==> other <= base.value
    ensures var all := AllPaths(layers);
            base.None? ==>
              all == [] || !exists other: Path :: other != [] && other[0].RootDir? && IsBase(other, all)
  {
    var all := AllPaths(layers);
    if all == [] || Parent(all[0]).None? {
      return None;
    }
    var shared := Parent(all[0]).value;
    for i := 1 to |all|
      invariant IsBase(shared, all[..i])
      invariant forall other :: IsBase(other, all) ==> other <= shared
    {
      if Parent(all[i]).None? {
        return None;
      }
      var candidate := Parent(all[i]).value;
      var keep := MatchingComponents(shared, candidate);
      var common := CommonPrefix(shared, candidate);
      assert shared[..keep] == common;
      forall other | IsBase(other, all) ensures other <= common {
        assert other <= candidate;
        CommonPrefixIsGreatest(shared, candidate, other);
      }
      shared := shared[..keep];
      forall k | 0 <= k < i + 1 ensures Parent(all[k]).Some? && shared <= Parent(all[k]).value {
        if k < i { assert all[..i][k] == all[k]; }
      }
    }
    assert all[..|all|] == all;
    if shared != [] && shared[0].RootDir? {
      return Some(shared);
    }
    return None;
  }

  lemma CommonPrefixIsGreatest(a: Path, b: Path, other: Path)
    requires other <= a && other <= b
    ensures other <= CommonPrefix(a, b)
  {
  }

  // ----- relative layers

  /** `strip_prefix`, refusing an empty rest. */
  function Strip(p: Path, base: Path): Option<Path> {
    if base <= p && |base| < |p| then Some(p[|base|..]) else None
  }

  function StripAll(paths: seq<Path>, base: Path): Option<seq<Path>> {
    if paths == [] then Some([])
    else
      match (Strip(paths[0], base), StripAll(paths[1..], base))
      case (Some(head), Some(tail)) => Some([head] + tail)
      case _ => None
  }

  function StripOptional(dir: Option<Path>, base: Path): Option<Option<Path>> {
    match dir
    case None => Some(None)
    case Some(p) =>
      match Strip(p, base)
      case None => None
      case Some(rest) => Some(Some(rest))
  }

  function RelativeTo(layers: Layers<Path>, base: Path): Option<Layers<Path>> {
    match (StripAll(layers.lower, base), StripOptional(layers.upper, base), StripOptional(layers.work, base))
    case (Some(lower), Some(upper), Some(work)) => Some(Layers(lower, upper, work))
    case _ => None
  }

  // ----- printed layers

  function TextAll(paths: seq<Path>): (texts: seq<string>)
    ensures |texts| == |paths|
    ensures forall i :: 0 <= i < |paths| ==> texts[i] == Text(paths[i])
  {
    if paths == [] then [] else [Text(paths[0])] + TextAll(paths[1..])
  }

  function TextOptional(dir: Option<Path>): Option<string> {
    match dir
    case None => None
    case Some(p) => Some(Text(p))
  }

  function TextLayers(layers: Layers<Path>): Layers<string> {
    Layers(TextAll(layers.lower), TextOptional(layers.upper), TextOptional(layers.work))
  }

  // ----- the mount

  datatype Error = Comma | NoCommonParent | NotBelowBase | TooLong

  /** The option string, and the directory the mount runs in when it was changed. */
  datatype Mount = Mount(data: string, cwd: Option<Path>)

  /** The directory a printed path names from a working directory. */
  function Resolve(cwd: Path, text: string): Path {
    if text != "" && text[0] == '/' then ParsePath(text) else cwd + ParsePath(text)
  }

  function ResolveAll(cwd: Path, texts: seq<string>): seq<Path> {
    if texts == [] then [] else [Resolve(cwd, texts[0])] + ResolveAll(cwd, texts[1..])
  }

  function ResolveOptional(cwd: Path, text: Option<string>): Option<Path> {
    match text
    case None => None
    case Some(t) => Some(Resolve(cwd, t))
  }

  function ResolveLayers(cwd: Path, texts: Layers<string>): Layers<Path> {
    Layers(ResolveAll(cwd, texts.lower), ResolveOptional(cwd, texts.upper), ResolveOptional(cwd, texts.work))
  }

  /** The layers the kernel finds in a mount: those of the page it reads. */
  function KernelLayers(m: Mount): Layers<Path> {
    ResolveLayers(if m.cwd.Some? then m.cwd.value else [], ReadBack(Page(m.data)))
  }

  /** What `from_annotations` hands on: absolute paths, at least one lower layer. */
  ghost predicate WellFormed(layers: Layers<Path>) {
    && layers.lower != []
    && forall i :: 0 <= i < |AllPaths(layers)| ==> IsAbsolute(AllPaths(layers)[i])
  }

  lemma AllPathsMembers(layers: Layers<Path>)
    ensures forall i :: 0 <= i < |layers.lower| ==> AllPaths(layers)[i] == layers.lower[i]
    ensures layers.upper.Some? ==> AllPaths(layers)[|layers.lower|] == layers.upper.value
    ensures layers.work.Some? ==> AllPaths(layers)[|AllPaths(layers)| - 1] == layers.work.value
  {
  }

  lemma {:induction false} ResolveAbsolute(cwd: Path, paths: seq<Path>)
    requires forall i :: 0 <= i < |paths| ==> IsAbsolute(paths[i])
    ensures ResolveAll(cwd, TextAll(paths)) == paths
    ensures "" !in TextAll(paths)
  {
    if paths != [] {
      PathRoundTrip(paths[0]);
      ResolveAbsolute(cwd, paths[1..]);
      assert TextAll(paths)[1..] == TextAll(paths[1..]);
    }
  }

  /** `rest` is the part of `p` below `base`, and it prints shorter. */
  ghost predicate Below(rest: Path, p: Path, base: Path) {
    && IsRelative(rest) && rest != []
    && base + rest == p
    && |OnePass(Text(rest))| < |OnePass(Text(p))|
    && (',' in Text(rest) ==> ',' in Text(p))
  }

  lemma StrippedPath(p: Path, base: Path)
    requires IsAbsolute(p) && base != [] && base <= p && |base| < |p|
    ensures Strip(p, base).Some? && Below(Strip(p, base).value, p, base)
  {
    var rest := p[|base|..];
    assert base + rest == p;
    forall i | 0 <= i < |rest| ensures rest[i].Normal? && IsName(rest[i].name) {
      assert rest[i] == p[1..][|base| + i - 1];
    }
    var above := if |base| == 1 then "/" else "/" + Names(base[1..]) + "/";
    assert Text(p) == above + Text(rest) by {
      assert p[1..] == base[1..] + rest;
      if |base| > 1 {
        NamesConcat(base[1..], rest);
      }
    }
    OnePassConcat(above, Text(rest));
    assert OnePass(above) != "" by { assert above[0] == '/'; }
  }

  lemma {:induction false} NamesConcat(a: Path, b: Path)
    requires a != [] && b != []
    ensures Names(a + b) == Names(a) + "/" + Names(b)
  {
    assert (a + b)[1..] == a[1..] + b;
    if |a| > 1 {
      NamesConcat(a[1..], b);
    } else {
      assert a[1..] + b == b;
    }
  }

  /** Every path of the list lies properly below the base. */
  ghost predicate AllUnder(paths: seq<Path>, base: Path) {
    forall i :: 0 <= i < |paths| ==> IsAbsolute(paths[i]) && base <= paths[i] && |base| < |paths[i]|
  }

  ghost predicate AllBelow(rest: seq<Path>, paths: seq<Path>, base: Path) {
    && |rest| == |paths|
    && (rest != [] ==> Below(rest[0], paths[0], base) && AllBelow(rest[1..], paths[1..], base))
  }

  lemma {:induction false} StrippedPaths(paths: seq<Path>, base: Path)
    requires base != [] && AllUnder(paths, base)
    ensures StripAll(paths, base).Some?
    ensures AllBelow(StripAll(paths, base).value, paths, base)
  {
    if paths != [] {
      StrippedPath(paths[0], base);
      StrippedPaths(paths[1..], base);
      assert StripAll(paths, base).value[1..] == StripAll(paths[1..], base).value;
    }
  }

  lemma ResolveBelow(rest: Path, p: Path, base: Path)
    requires Below(rest, p, base)
    ensures Resolve(base, Text(rest)) == p && Text(rest) != ""
  {
    PathRoundTrip(rest);
  }

  lemma {:induction false} ResolveAllBelow(rest: seq<Path>, paths: seq<Path>, base: Path)
    requires AllBelow(rest, paths, base)
    ensures ResolveAll(base, TextAll(rest)) == paths
    ensures "" !in TextAll(rest)
  {
    if paths != [] {
      ResolveBelow(rest[0], paths[0], base);
      ResolveAllBelow(rest[1..], paths[1..], base);
      assert TextAll(rest)[1..] == TextAll(rest[1..]);
    }
  }

  // ----- lengths

  lemma {:induction false} JoinShorter(a: seq<string>, b: seq<string>, sep: char)
    requires |a| == |b| && a != []
    requires forall i :: 0 <= i < |a| ==> |a[i]| < |b[i]|
    ensures |Join(a, sep)| < |Join(b, sep)|
  {
    if |a| > 1 {
      JoinShorter(a[1..], b[1..], sep);
    }
  }

  ghost predicate NoCommas(texts: seq<string>) {
    forall t :: t in texts ==> ',' !in t
  }

  lemma {:induction false} BelowIsCommaFree(rest: seq<Path>, paths: seq<Path>, base: Path)
    requires AllBelow(rest, paths, base) && NoCommas(TextAll(paths))
    ensures NoCommas(TextAll(rest))
  {
    if rest != [] {
      assert Text(paths[0]) in TextAll(paths);
      assert TextAll(paths)[1..] == TextAll(paths[1..]);
      BelowIsCommaFree(rest[1..], paths[1..], base);
    }
  }

  /** Length of the option string of layers that can be printed. */
  function OptionLength(layers: Layers<string>): nat {
    match Options(layers)
    case None => 0
    case Some(data) => |data|
  }

  /** The relative layers of a base: they exist, name the same directories from it, and print to a
      strictly shorter option string. */
  lemma RelativeLayers(layers: Layers<Path>, base: Path)
    requires WellFormed(layers) && base != [] && IsBase(base, AllPaths(layers))
    requires CommaFree(TextLayers(layers))
    ensures RelativeTo(layers, base).Some?
    ensures var short := TextLayers(RelativeTo(layers, base).value);
            && CommaFree(short) && NoneEmpty(short)
            && OptionLength(short) < OptionLength(TextLayers(layers))
            && ResolveLayers(base, short) == layers
  {
    LayersAreUnder(layers, base);
    StrippedPaths(layers.lower, base);
    StrippedOptional(layers.upper, base);
    StrippedOptional(layers.work, base);
    var rest := RelativeTo(layers, base).value;
    ResolveAllBelow(rest.lower, layers.lower, base);
    BelowIsCommaFree(rest.lower, layers.lower, base);
    BelowIsShorter(rest.lower, layers.lower, base);
    OptionsShorter(TextLayers(rest), TextLayers(layers));
  }

  lemma LayersAreUnder(layers: Layers<Path>, base: Path)
    requires WellFormed(layers) && IsBase(base, AllPaths(layers))
    ensures AllUnder(layers.lower, base)
    ensures layers.upper.Some? ==> AllUnder([layers.upper.value], base)
    ensures layers.work.Some? ==> AllUnder([layers.work.value], base)
  {
    AllPathsMembers(layers);
    var all := AllPaths(layers);
    forall i | 0 <= i < |all| ensures AllUnder([all[i]], base) {
      assert IsAbsolute(all[i]) && Parent(all[i]).Some?;
    }
    forall i | 0 <= i < |layers.lower|
      ensures IsAbsolute(layers.lower[i]) && base <= layers.lower[i] && |base| < |layers.lower[i]|
    {
      assert AllUnder([all[i]], base);
      assert [all[i]][0] == layers.lower[i];
    }
  }

  lemma StrippedOptional(dir: Option<Path>, base: Path)
    requires base != [] && (dir.Some? ==> AllUnder([dir.value], base))
    ensures StripOptional(dir, base).Some? && StripOptional(dir, base).value.Some? == dir.Some?
    ensures dir.Some? ==>
              var rest := StripOptional(dir, base).value.value;
              Below(rest, dir.value, base) && Resolve(base, Text(rest)) == dir.value && Text(rest) != ""
  {
    if dir.Some? {
      assert AllUnder([dir.value], base) && [dir.value][0] == dir.value;
      StrippedPath(dir.value, base);
      ResolveBelow(Strip(dir.value, base).value, dir.value, base);
    }
  }

  lemma {:induction false} BelowIsShorter(rest: seq<Path>, paths: seq<Path>, base: Path)
    requires AllBelow(rest, paths, base)
    ensures var short, long := OnePassAll(TextAll(rest)), OnePassAll(TextAll(paths));
            |short| == |long| == |paths| && forall i :: 0 <= i < |paths| ==> |short[i]| < |long[i]|
  {
    if rest != [] {
      BelowIsShorter(rest[1..], paths[1..], base);
    }
  }

  lemma OptionsShorter(short: Layers<string>, long: Layers<string>)
    requires CommaFree(short) && CommaFree(long)
    requires |short.lower| == |long.lower| && short.lower != []
    requires forall i :: 0 <= i < |short.lower| ==>
               |OnePassAll(short.lower)[i]| < |OnePassAll(long.lower)[i]|
    requires short.upper.Some? == long.upper.Some? && short.work.Some? == long.work.Some?
    requires short.upper.Some? ==> |OnePass(short.upper.value)| < |OnePass(long.upper.value)|
    requires short.work.Some? ==> |OnePass(short.work.value)| < |OnePass(long.work.value)|
    ensures OptionLength(short) < OptionLength(long)
  {
    JoinShorter(OnePassAll(short.lower), OnePassAll(long.lower), ':');
    JoinShorter(OptionParts(short), OptionParts(long), ',');
    OptionsAreParts(short);
    OptionsAreParts(long);
  }

  // ----- what a cut does to the paths

  /** The characters of a string that are not slashes. */
  function Ink(s: string): nat {
    if s == "" then 0 else (if s[0] == '/' then 0 else 1) + Ink(s[1..])
  }

  function InkOf(p: Path): nat {
    if p == [] then 0 else (if p[0].Normal? then Ink(p[0].name) else 0) + InkOf(p[1..])
  }

  lemma {:induction false} InkConcat(a: string, b: string)
    ensures Ink(a + b) == Ink(a) + Ink(b)
  {
    if a == "" {
      assert a + b == b;
    } else {
      assert (a + b)[1..] == a[1..] + b;
      InkConcat(a[1..], b);
    }
  }

  lemma InkOfConcat(c: Component, p: Path)
    ensures InkOf([c] + p) == InkOf([c]) + InkOf(p)
  {
    assert ([c] + p)[1..] == p && [c][1..] == [];
  }

  lemma {:induction false} InkOfParse(s: string, current: string)
    ensures InkOf(ParseNames(s, current)) == Ink(s) + Ink(current)
  {
    var last := if current == "" then [] else [Normal(current)];
    if s != "" {
      if s[0] == '/' {
        InkOfParse(s[1..], "");
        InkOfConcat(Normal(current), ParseNames(s[1..], ""));
        assert [] + ParseNames(s[1..], "") == ParseNames(s[1..], "");
      } else {
        InkOfParse(s[1..], current + [s[0]]);
        InkConcat(current, [s[0]]);
      }
    }
  }

  lemma InkOfPath(s: string)
    ensures InkOf(ParsePath(s)) == Ink(s)
  {
    if s != "" && s[0] == '/' {
      InkOfParse(s[1..], "");
      InkOfConcat(RootDir, ParseNames(s[1..], ""));
    } else {
      InkOfParse(s, "");
    }
  }

  /** A printed path other than the root does not end with a slash. */
  lemma {:induction false} NamesEnd(p: Path)
    requires IsRelative(p) && p != []
    ensures Names(p) != "" && Names(p)[|Names(p)| - 1] != '/'
  {
    if |p| > 1 {
      NamesEnd(p[1..]);
    }
  }

  /** So a shorter beginning of it names something else, from wherever it is resolved. */
  lemma PrefixNamesElse(cwd: Path, p: Path, cut: string)
    requires (IsAbsolute(p) || IsRelative(p)) && p != [] && ProperPrefix(cut, Text(p))
    ensures Resolve(cwd, cut) != Resolve(cwd, Text(p))
  {
    var text := Text(p);
    var end := if p[0].RootDir? then p[1..] else p;
    if end != [] {
      NamesEnd(end);
    }
    assert text[|text| - 1] != '/';
    var rest := text[|cut|..];
    assert text == cut + rest;
    InkConcat(cut, rest);
    assert rest == rest[..|rest| - 1] + [text[|text| - 1]];
    InkConcat(rest[..|rest| - 1], [text[|text| - 1]]);
    InkOfPath(cut);
    InkOfPath(text);
    assert cut[0] == text[0];
    SameRest(cwd, ParsePath(cut), ParsePath(text));
  }

  lemma SameRest(cwd: Path, a: Path, b: Path)
    ensures cwd + a == cwd + b ==> a == b
  {
    assert (cwd + a)[|cwd|..] == a && (cwd + b)[|cwd|..] == b;
  }

  /** What can be printed and resolved without loss: at least one layer, and only absolute or only
      relative, non-empty paths. */
  ghost predicate Printable(layers: Layers<Path>) {
    && layers.lower != [] && CommaFree(TextLayers(layers)) && NoneEmpty(TextLayers(layers))
    && forall p :: p in AllPaths(layers) ==> (IsAbsolute(p) || IsRelative(p)) && p != []
  }

  lemma {:induction false} ResolvedCount(cwd: Path, texts: seq<string>)
    ensures |ResolveAll(cwd, texts)| == |texts|
    ensures forall i :: 0 <= i < |texts| ==> ResolveAll(cwd, texts)[i] == Resolve(cwd, texts[i])
  {
    if texts != [] {
      ResolvedCount(cwd, texts[1..]);
    }
  }

  lemma CutLowerNamesElse(cwd: Path, lower: seq<Path>, read: seq<string>)
    requires lower != [] && LastCut(read, TextAll(lower))
    requires var p := lower[|lower| - 1]; (IsAbsolute(p) || IsRelative(p)) && p != []
    ensures ResolveAll(cwd, read) != ResolveAll(cwd, TextAll(lower))
  {
    ResolvedCount(cwd, read);
    ResolvedCount(cwd, TextAll(lower));
    if |read| == |lower| {
      PrefixNamesElse(cwd, lower[|lower| - 1], read[|read| - 1]);
    }
  }

  lemma CutDirNamesElse(cwd: Path, p: Path, read: Option<string>)
    requires DirCut(read, Text(p)) && (IsAbsolute(p) || IsRelative(p)) && p != []
    ensures ResolveOptional(cwd, read) != Some(Resolve(cwd, Text(p)))
  {
    if read.Some? {
      PrefixNamesElse(cwd, p, read.value);
    }
  }

  /** The exact bound: the kernel finds the directories that were printed if and only if the string is
      shorter than the page. */
  lemma PageDecides(printed: Layers<Path>, cwd: Option<Path>)
    requires Printable(printed)
    ensures Options(TextLayers(printed)).Some?
    ensures var data, from := Options(TextLayers(printed)).value, if cwd.Some? then cwd.value else [];
            KernelLayers(Mount(data, cwd)) == ResolveLayers(from, TextLayers(printed)) <==> |data| < PAGE
  {
    var texts := TextLayers(printed);
    OptionsRoundTrip(texts);
    var data, from := Options(texts).value, if cwd.Some? then cwd.value else [];
    if |data| >= PAGE {
      CutLosesTheLast(texts, PAGE - 1);
      CutNamesElse(from, printed, ReadBack(Page(data)));
    }
  }

  lemma CutNamesElse(cwd: Path, printed: Layers<Path>, read: Layers<string>)
    requires Printable(printed)
    requires if printed.work.Some? then DirCut(read.work, Text(printed.work.value))
             else if printed.upper.Some? then DirCut(read.upper, Text(printed.upper.value))
             else LastCut(read.lower, TextAll(printed.lower))
    ensures ResolveLayers(cwd, read) != ResolveLayers(cwd, TextLayers(printed))
  {
    if printed.work.Some? {
      assert printed.work.value in AllPaths(printed);
      CutDirNamesElse(cwd, printed.work.value, read.work);
    } else if printed.upper.Some? {
      assert printed.upper.value in AllPaths(printed);
      CutDirNamesElse(cwd, printed.upper.value, read.upper);
    } else {
      assert printed.lower[|printed.lower| - 1] in AllPaths(printed);
      CutLowerNamesElse(cwd, printed.lower, read.lower);
    }
  }

  // ----- mount_at

  /** Absolute layers are the kernel's, from whatever directory, exactly if they fit. */
  lemma AbsoluteLayers(layers: Layers<Path>)
    requires WellFormed(layers) && CommaFree(TextLayers(layers))
    ensures Options(TextLayers(layers)).Some?
    ensures var data := Options(TextLayers(layers)).value;
            KernelLayers(Mount(data, None)) == layers <==> |data| < PAGE
  {
    AllPathsMembers(layers);
    ResolveAbsolute([], layers.lower);
    if layers.upper.Some? { PathRoundTrip(layers.upper.value); }
    if layers.work.Some? { PathRoundTrip(layers.work.value); }
    PageDecides(layers, None);
  }

  /** And so are the layers relative to a base, from that base. */
  lemma LayersBelowBase(layers: Layers<Path>, base: Path)
    requires WellFormed(layers) && base != [] && IsBase(base, AllPaths(layers))
    requires CommaFree(TextLayers(layers))
    ensures RelativeTo(layers, base).Some?
    ensures Options(TextLayers(RelativeTo(layers, base).value)).Some?
    ensures var data := Options(TextLayers(RelativeTo(layers, base).value)).value;
            && |data| < OptionLength(TextLayers(layers))
            && (KernelLayers(Mount(data, Some(base))) == layers <==> |data| < PAGE)
  {
    RelativeLayers(layers, base);
    RelativeIsPrintable(layers, base);
    PageDecides(RelativeTo(layers, base).value, Some(base));
  }

  lemma RelativeIsPrintable(layers: Layers<Path>, base: Path)
    requires WellFormed(layers) && base != [] && IsBase(base, AllPaths(layers))
    requires CommaFree(TextLayers(layers))
    requires RelativeTo(layers, base).Some?
    ensures Printable(RelativeTo(layers, base).value)
  {
    RelativeLayers(layers, base);
    RelativePaths(layers, base);
  }

  lemma RelativePaths(layers: Layers<Path>, base: Path)
    requires WellFormed(layers) && base != [] && IsBase(base, AllPaths(layers))
    requires RelativeTo(layers, base).Some?
    ensures var rest := RelativeTo(layers, base).value;
            && |rest.lower| == |layers.lower|
            && forall p :: p in AllPaths(rest) ==> IsRelative(p) && p != []
  {
    LayersAreUnder(layers, base);
    StrippedPaths(layers.lower, base);
    StrippedOptional(layers.upper, base);
    StrippedOptional(layers.work, base);
    AllBelowIsRelative(StripAll(layers.lower, base).value, layers.lower, base);
  }

  lemma {:induction false} AllBelowIsRelative(rest: seq<Path>, paths: seq<Path>, base: Path)
    requires AllBelow(rest, paths, base)
    ensures |rest| == |paths| && forall p :: p in rest ==> IsRelative(p) && p != []
  {
    if rest != [] {
      AllBelowIsRelative(rest[1..], paths[1..], base);
      assert rest == [rest[0]] + rest[1..];
    }
  }

  /** A directory above every layer that every other such directory is above. */
  ghost predicate DeepestBase(base: Path, layers: Layers<Path>) {
    && base != [] && base[0].RootDir?
    && IsBase(base, AllPaths(layers))
    && forall other :: IsBase(other, AllPaths(layers)) ==> other <= base
  }

  /** There is at most one. */
  lemma DeepestBaseIsOne(a: Path, b: Path, layers: Layers<Path>)
    requires DeepestBase(a, layers) && DeepestBase(b, layers)
    ensures a == b
  {
    assert a <= b && b <= a;
  }

  ghost predicate HasBase(layers: Layers<Path>) {
    exists base: Path :: base != [] && base[0].RootDir? && IsBase(base, AllPaths(layers))
  }

  /** How long the options are from a base. */
  function LengthFrom(layers: Layers<Path>, base: Path): nat {
    match RelativeTo(layers, base)
    case None => 0
    case Some(short) => OptionLength(TextLayers(short))
  }

  /** The options relative to the deepest base do not fit either. */
  ghost predicate TooLongFromBase(layers: Layers<Path>) {
    exists base :: DeepestBase(base, layers) && LengthFrom(layers, base) > MAX_OPTION_BYTES
  }

  /** Whenever the mount is reached, its options are those of the layers, absolute if these fit and
      otherwise relative to the deepest base, and they have at most 4096 bytes. The kernel then finds
      exactly the requested layers, unless there are 4096 of them: the last byte of the page is not
      its to read. The mount is refused exactly for a comma, for want of a common directory, or when
      the options relative to the deepest one are too long. */
  method MountAt(layers: Layers<Path>) returns (r: Result<Mount, Error>)
    requires WellFormed(layers)
    ensures r.Ok? ==> |r.value.data| <= MAX_OPTION_BYTES
                      && (KernelLayers(r.value) == layers <==> |r.value.data| < PAGE)
    ensures r.Ok? && r.value.cwd.None? ==> Options(TextLayers(layers)) == Some(r.value.data)
    ensures r.Ok? && r.value.cwd.Some? ==>
              && DeepestBase(r.value.cwd.value, layers)
              && RelativeTo(layers, r.value.cwd.value).Some?
              && Options(TextLayers(RelativeTo(layers, r.value.cwd.value).value)) == Some(r.value.data)
              && |r.value.data| < OptionLength(TextLayers(layers))
    ensures r == Err(Comma) <==> !CommaFree(TextLayers(layers))
    ensures r != Err(NotBelowBase)
    ensures CommaFree(TextLayers(layers)) ==>
              ((r.Ok? && r.value.cwd.None?) <==> OptionLength(TextLayers(layers)) <= MAX_OPTION_BYTES)
    ensures r == Err(NoCommonParent) <==>
              CommaFree(TextLayers(layers)) && OptionLength(TextLayers(layers)) > MAX_OPTION_BYTES && !HasBase(layers)
    ensures r == Err(TooLong) <==>
              CommaFree(TextLayers(layers)) && OptionLength(TextLayers(layers)) > MAX_OPTION_BYTES
              && TooLongFromBase(layers)
  {
    OptionsFailOnCommas(TextLayers(layers));
    var absolute := Options(TextLayers(layers));
    if absolute.None? {
      return Err(Comma);
    }
    AbsoluteLayers(layers);
    if |absolute.value| <= MAX_OPTION_BYTES {
      return Ok(Mount(absolute.value, None));
    }
    var base := CommonParent(layers);
    if base.None? {
      assert !HasBase(layers);
      return Err(NoCommonParent);
    }
    LayersBelowBase(layers, base.value);
    var relative := RelativeTo(layers, base.value);
    if relative.None? {
      return Err(NotBelowBase);
    }
    var shortened := Options(TextLayers(relative.value));
    if shortened.None? {
      return Err(Comma);
    }
    assert DeepestBase(base.value, layers);
    OneBaseDecides(layers, base.value);
    if |shortened.value| > MAX_OPTION_BYTES {
      return Err(TooLong);
    }
    return Ok(Mount(shortened.value, base));
  }

  lemma OneBaseDecides(layers: Layers<Path>, base: Path)
    requires DeepestBase(base, layers)
    ensures TooLongFromBase(layers) <==> LengthFrom(layers, base) > MAX_OPTION_BYTES
    ensures HasBase(layers)
  {
    forall other | DeepestBase(other, layers) ensures other == base {
      DeepestBaseIsOne(other, base, layers);
    }
  }

  // ----- the input that loses its last byte

  function Tail(n: nat): Path {
    if n == 0 then [] else [Normal("a")] + Tail(n - 1)
  }

  function Slashed(n: nat): string {
    if n == 0 then "" else ['/'] + (['a'] + Slashed(n - 1))
  }

  /** A path of `n` directories called "a" below a directory called "aa" below the root. */
  function Deep(n: nat): Path {
    [RootDir] + ([Normal("aa")] + Tail(n))
  }

  lemma {:induction false} TailText(name: string, n: nat)
    requires IsName(name)
    ensures IsRelative([Normal(name)] + Tail(n))
    ensures Names([Normal(name)] + Tail(n)) == name + Slashed(n)
    decreases n
  {
    NamesOfFirst(name, Tail(n));
    if n > 0 {
      var a: string := ['a'];
      TailText(a, n - 1);
      assert name + "/" + Names(Tail(n)) == name + Slashed(n);
    } else {
      assert name + "" == name;
    }
  }

  lemma NamesOfFirst(name: string, rest: Path)
    ensures Names([Normal(name)] + rest) == name + if rest == [] then "" else "/" + Names(rest)
  {
    assert ([Normal(name)] + rest)[1..] == rest;
  }

  lemma PlainFirst(c: char, rest: string)
    requires c == '/' || c == 'a'
    ensures OnePass([c] + rest) == [c] + OnePass(rest)
    ensures ',' in [c] + rest <==> ',' in rest
  {
    assert ([c] + rest)[1..] == rest;
  }

  lemma {:induction false} PlainSlashed(n: nat)
    ensures |Slashed(n)| == 2 * n && ',' !in Slashed(n) && OnePass(Slashed(n)) == Slashed(n)
  {
    if n > 0 {
      PlainSlashed(n - 1);
      PlainFirst('a', Slashed(n - 1));
      PlainFirst('/', ['a'] + Slashed(n - 1));
    }
  }

  lemma DeepText(n: nat)
    ensures IsAbsolute(Deep(n)) && |Text(Deep(n))| == 2 * n + 3
    ensures ',' !in Text(Deep(n)) && OnePass(Text(Deep(n))) == Text(Deep(n))
  {
    var name: string := ['a', 'a'];
    TailText(name, n);
    assert Deep(n)[1..] == [Normal(name)] + Tail(n);
    PlainSlashed(n);
    PlainName(Slashed(n));
    assert Text(Deep(n)) == ['/'] + (name + Slashed(n));
  }

  lemma PlainName(rest: string)
    requires OnePass(rest) == rest && ',' !in rest
    ensures var text := ['/'] + (['a', 'a'] + rest);
            OnePass(text) == text && ',' !in text
  {
    var one := ['a'] + rest;
    PlainFirst('a', rest);
    PlainFirst('a', one);
    assert ['a', 'a'] + rest == ['a'] + one;
    PlainFirst('/', ['a'] + one);
  }

  /** One lower directory whose path has 4087 bytes gives 4096 bytes of options. `MountAt` takes them as
      they are, and the kernel mounts another directory. */
  lemma FullPageIsCut()
    ensures var layers := Layers([Deep(2042)], None, None);
            && WellFormed(layers) && CommaFree(TextLayers(layers))
            && OptionLength(TextLayers(layers)) == MAX_OPTION_BYTES
            && KernelLayers(Mount(Options(TextLayers(layers)).value, None)) != layers
  {
    var n: nat := 2042;
    OneDeepLayer(n);
    AbsoluteLayers(Layers([Deep(n)], None, None));
  }

  lemma OneDeepLayer(n: nat)
    ensures var layers := Layers([Deep(n)], None, None);
            && WellFormed(layers) && CommaFree(TextLayers(layers))
            && OptionLength(TextLayers(layers)) == 2 * n + 12
  {
    var layers := Layers([Deep(n)], None, None);
    DeepText(n);
    var text := Text(Deep(n));
    assert TextAll([Deep(n)]) == [text] by { assert [Deep(n)][1..] == []; }
    assert AllPaths(layers) == [Deep(n)];
    OptionsAreParts(TextLayers(layers));
    assert OnePassAll([text]) == [text] by { assert [text][1..] == []; }
    assert OptionParts(TextLayers(layers)) == [LOWER + text];
  }
}
