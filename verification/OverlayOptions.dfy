/** The option string of an overlay mount: printing with escapes, and splitting again
    (src/rootfs/overlay.rs, `split_lowerdir`, `escape`, `options`). Strings are byte sequences. */
module OverlayOptions {
  import opened Wrappers

  datatype Layers<T> = Layers(lower: seq<T>, upper: Option<T>, work: Option<T>)

  // ----- splitting

  /** The segments of a value, the last one started with `current`. A backslash takes the next
      character as it is; one at the very end is dropped. */
  function Segments(value: string, current: string): (segments: seq<string>)
    ensures segments != []
    decreases |value|
  {
    if value == "" then [current]
    else if value[0] == '\\' then
      if |value| > 1 then Segments(value[2..], current + [value[1]]) else [current]
    else if value[0] == ':' then [current] + Segments(value[1..], "")
    else Segments(value[1..], current + [value[0]])
  }

  function NonEmpty(parts: seq<string>): seq<string> {
    if parts == [] then []
    else if parts[0] == "" then NonEmpty(parts[1..])
    else [parts[0]] + NonEmpty(parts[1..])
  }

  function SplitLowerdir(value: string): seq<string> {
    NonEmpty(Segments(value, ""))
  }

  /** The loop of the source computes the segments. */
  method SplitLowerdirLoop(value: string) returns (parts: seq<string>)
    ensures parts == SplitLowerdir(value)
  {
    var out: seq<string> := [];
    var current := "";
    var i := 0;
    while i < |value|
      invariant 0 <= i <= |value|
      invariant out + Segments(value[i..], current) == Segments(value, "")
    {
      var c := value[i];
      assert value[i..][1..] == value[i + 1..];
      i := i + 1;
      if c == '\\' {
        if i < |value| {
          assert value[i - 1..][2..] == value[i + 1..];
          current := current + [value[i]];
          i := i + 1;
        }
      } else if c == ':' {
        out := out + [current];
        current := "";
      } else {
        current := current + [c];
      }
    }
    out := out + [current];
    parts := [];
    assert out[0..] == out;
    for j := 0 to |out|
      invariant parts + NonEmpty(out[j..]) == NonEmpty(out)
    {
      assert out[j..][1..] == out[j + 1..];
      if out[j] != "" {
        parts := parts + [out[j]];
      }
    }
  }

  // ----- escaping

  /** `str::replace` of one character. */
  function Replace(s: string, c: char, with: string): string {
    if s == "" then "" else (if s[0] == c then with else [s[0]]) + Replace(s[1..], c, with)
  }

  /** Two chained replacements; a comma cannot be escaped. */
  function Escape(path: string): Option<string> {
    if ',' in path then None else Some(Replace(Replace(path, '\\', "\\\\"), ':', "\\:"))
  }

  function Escaped(c: char): string {
    if c == '\\' then "\\\\" else if c == ':' then "\\:" else [c]
  }

  function OnePass(s: string): string {
    if s == "" then "" else Escaped(s[0]) + OnePass(s[1..])
  }

  lemma {:induction false} ReplaceConcat(a: string, b: string, c: char, with: string)
    ensures Replace(a + b, c, with) == Replace(a, c, with) + Replace(b, c, with)
  {
    if a == "" {
      assert a + b == b;
    } else {
      assert (a + b)[1..] == a[1..] + b;
      ReplaceConcat(a[1..], b, c, with);
    }
  }

  /** The second replacement never touches what the first one inserted. */
  lemma {:induction false} ChainedReplacesAreOnePass(s: string)
    ensures Replace(Replace(s, '\\', "\\\\"), ':', "\\:") == OnePass(s)
  {
    if s != "" {
      var head := if s[0] == '\\' then "\\\\" else [s[0]];
      ReplaceConcat(head, Replace(s[1..], '\\', "\\\\"), ':', "\\:");
      ChainedReplacesAreOnePass(s[1..]);
      assert head[1..] == "" || head[1..] == "\\";
      assert Replace(head, ':', "\\:") == Escaped(s[0]);
    }
  }

  lemma {:induction false} OnePassConcat(a: string, b: string)
    ensures OnePass(a + b) == OnePass(a) + OnePass(b)
  {
    if a == "" {
      assert a + b == b;
    } else {
      assert (a + b)[1..] == a[1..] + b;
      OnePassConcat(a[1..], b);
    }
  }

  lemma {:induction false} OnePassAddsNoComma(s: string)
    requires ',' !in s
    ensures ',' !in OnePass(s)
  {
    if s != "" {
      OnePassAddsNoComma(s[1..]);
    }
  }

  /** An escaped string is read back into the current segment. */
  lemma {:induction false} SegmentsOfEscaped(s: string, rest: string, current: string)
    ensures Segments(OnePass(s) + rest, current) == Segments(rest, current + s)
  {
    if s == "" {
      assert OnePass(s) + rest == rest && current + s == current;
    } else {
      var tail := OnePass(s[1..]) + rest;
      assert OnePass(s) + rest == Escaped(s[0]) + tail;
      assert (Escaped(s[0]) + tail)[|Escaped(s[0])|..] == tail;
      SegmentsOfEscaped(s[1..], rest, current + [s[0]]);
      assert current + [s[0]] + s[1..] == current + s;
    }
  }

  // ----- the option string

  function Join(parts: seq<string>, sep: char): string {
    if parts == [] then "" else if |parts| == 1 then parts[0]
    else parts[0] + [sep] + Join(parts[1..], sep)
  }

  function EscapeAll(paths: seq<string>): Option<seq<string>> {
    if paths == [] then Some([])
    else
      match (Escape(paths[0]), EscapeAll(paths[1..]))
      case (Some(head), Some(tail)) => Some([head] + tail)
      case _ => None
  }

  const LOWER := "lowerdir="
  const UPPER := "upperdir="
  const WORK := "workdir="

  /** The part for an optional directory; None when it cannot be escaped. */
  function OptionalPart(key: string, dir: Option<string>): Option<seq<string>> {
    match dir
    case None => Some([])
    case Some(path) =>
      match Escape(path)
      case None => None
      case Some(text) => Some([key + text])
  }

  function Options(layers: Layers<string>): Option<string> {
    match (EscapeAll(layers.lower), OptionalPart(UPPER, layers.upper), OptionalPart(WORK, layers.work))
    case (Some(lower), Some(upper), Some(work)) =>
      Some(Join([LOWER + Join(lower, ':')] + upper + work, ','))
    case _ => None
  }

  // ----- reading it back

  function SplitCommas(s: string, current: string): seq<string> {
    if s == "" then [current]
    else if s[0] == ',' then [current] + SplitCommas(s[1..], "")
    else SplitCommas(s[1..], current + [s[0]])
  }

  /** The value of the first option with this key. */
  function Find(parts: seq<string>, key: string): Option<string> {
    if parts == [] then None
    else if key <= parts[0] then Some(parts[0][|key|..])
    else Find(parts[1..], key)
  }

  function ReadDir(value: Option<string>): Option<string> {
    if value.None? then None
    else
      var dirs := SplitLowerdir(value.value);
      if |dirs| == 1 then Some(dirs[0]) else None
  }

  /** What a reader of the option string finds. */
  function ReadBack(data: string): Layers<string> {
    var parts := SplitCommas(data, "");
    var lower := Find(parts, LOWER);
    Layers(if lower.Some? then SplitLowerdir(lower.value) else [],
           ReadDir(Find(parts, UPPER)), ReadDir(Find(parts, WORK)))
  }

  predicate CommaFree(layers: Layers<string>) {
    && (forall dir :: dir in layers.lower ==> ',' !in dir)
    && (layers.upper.Some? ==> ',' !in layers.upper.value)
    && (layers.work.Some? ==> ',' !in layers.work.value)
  }

  predicate NoneEmpty(layers: Layers<string>) {
    "" !in layers.lower && layers.upper != Some("") && layers.work != Some("")
  }

  lemma {:induction false} SplitCommasOf(part: string, rest: string, current: string)
    requires ',' !in part
    ensures SplitCommas(part + rest, current) == SplitCommas(rest, current + part)
  {
    if part == "" {
      assert part + rest == rest && current + part == current;
    } else {
      assert (part + rest)[1..] == part[1..] + rest;
      SplitCommasOf(part[1..], rest, current + [part[0]]);
      assert current + [part[0]] + part[1..] == current + part;
    }
  }

  lemma {:induction false} SplitCommasOfJoin(parts: seq<string>)
    requires parts != [] && forall p :: p in parts ==> ',' !in p
    ensures SplitCommas(Join(parts, ','), "") == parts
  {
    assert parts[0] in parts;
    if |parts| == 1 {
      SplitCommasOf(parts[0], "", "");
      assert parts[0] + "" == parts[0] && "" + parts[0] == parts[0];
    } else {
      var rest := [','] + Join(parts[1..], ',');
      SplitCommasOf(parts[0], rest, "");
      assert parts[0] + [','] + Join(parts[1..], ',') == parts[0] + rest;
      assert rest[1..] == Join(parts[1..], ',');
      SplitCommasOfJoin(parts[1..]);
      assert "" + parts[0] == parts[0];
    }
  }

  function OnePassAll(paths: seq<string>): (all: seq<string>)
    ensures |all| == |paths| && forall i :: 0 <= i < |all| ==> all[i] == OnePass(paths[i])
  {
    if paths == [] then [] else [OnePass(paths[0])] + OnePassAll(paths[1..])
  }

  lemma {:induction false} EscapeAllIsOnePass(paths: seq<string>)
    ensures EscapeAll(paths).Some? <==> forall p :: p in paths ==> ',' !in p
    ensures EscapeAll(paths).Some? ==> EscapeAll(paths).value == OnePassAll(paths)
  {
    if paths != [] {
      ChainedReplacesAreOnePass(paths[0]);
      EscapeAllIsOnePass(paths[1..]);
      assert paths == [paths[0]] + paths[1..];
    }
  }

  lemma {:induction false} SegmentsOfJoin(paths: seq<string>)
    requires paths != []
    ensures Segments(Join(OnePassAll(paths), ':'), "") == paths
  {
    if |paths| == 1 {
      assert OnePassAll(paths[1..]) == [];
      SegmentsOfEscaped(paths[0], "", "");
      assert OnePass(paths[0]) + "" == OnePass(paths[0]) && "" + paths[0] == paths[0];
    } else {
      var rest := [':'] + Join(OnePassAll(paths[1..]), ':');
      assert OnePassAll(paths)[1..] == OnePassAll(paths[1..]);
      assert Join(OnePassAll(paths), ':') == OnePass(paths[0]) + rest;
      SegmentsOfEscaped(paths[0], rest, "");
      assert "" + paths[0] == paths[0];
      assert rest[1..] == Join(OnePassAll(paths[1..]), ':');
      SegmentsOfJoin(paths[1..]);
      assert [paths[0]] + paths[1..] == paths;
    }
  }

  lemma {:induction false} JoinAddsNoComma(paths: seq<string>)
    requires forall p :: p in paths ==> ',' !in p
    ensures ',' !in Join(OnePassAll(paths), ':')
  {
    if paths != [] {
      OnePassAddsNoComma(paths[0]);
      assert OnePassAll(paths)[1..] == OnePassAll(paths[1..]);
      JoinAddsNoComma(paths[1..]);
    }
  }

  lemma {:induction false} NonEmptyKeeps(parts: seq<string>)
    ensures NonEmpty(parts) == parts <==> "" !in parts
    ensures |NonEmpty(parts)| <= |parts|
  {
    if parts != [] {
      NonEmptyKeeps(parts[1..]);
      assert parts == [parts[0]] + parts[1..];
      if NonEmpty(parts) == parts && parts[0] != "" {
        assert NonEmpty(parts)[1..] == NonEmpty(parts[1..]);
      }
    }
  }

  /** The list of lower directories comes back without its empty entries. */
  lemma LowerRoundTrip(paths: seq<string>)
    ensures SplitLowerdir(Join(OnePassAll(paths), ':')) == NonEmpty(paths)
  {
    if paths == [] {
      assert Segments("", "") == [""];
      assert [""][1..] == [];
    } else {
      SegmentsOfJoin(paths);
    }
  }

  lemma DirRoundTrip(dir: string)
    ensures ReadDir(Some(OnePass(dir))) == if dir == "" then None else Some(dir)
  {
    LowerRoundTrip([dir]);
    assert OnePassAll([dir]) == [OnePass(dir)] by { assert OnePassAll([dir][1..]) == []; }
    assert [dir][1..] == [];
  }

  /** The options of layers, one by one. */
  function OptionParts(layers: Layers<string>): (parts: seq<string>)
    ensures parts != [] && LOWER <= parts[0]
  {
    [LOWER + Join(OnePassAll(layers.lower), ':')]
    + (if layers.upper.Some? then [UPPER + OnePass(layers.upper.value)] else [])
    + (if layers.work.Some? then [WORK + OnePass(layers.work.value)] else [])
  }

  lemma OptionsAreParts(layers: Layers<string>)
    requires CommaFree(layers)
    ensures Options(layers) == Some(Join(OptionParts(layers), ','))
    ensures forall p :: p in OptionParts(layers) ==> ',' !in p
  {
    EscapeAllIsOnePass(layers.lower);
    JoinAddsNoComma(layers.lower);
    if layers.upper.Some? {
      ChainedReplacesAreOnePass(layers.upper.value);
      OnePassAddsNoComma(layers.upper.value);
    }
    if layers.work.Some? {
      ChainedReplacesAreOnePass(layers.work.value);
      OnePassAddsNoComma(layers.work.value);
    }
  }

  lemma {:induction false} JoinSnoc(parts: seq<string>, last: string)
    requires parts != []
    ensures Join(parts + [last], ',') == Join(parts, ',') + ("," + last)
  {
    var all := parts + [last];
    assert all[0] == parts[0] && all[1..] == parts[1..] + [last];
    if |parts| == 1 {
      assert all[1..] == [last];
      assert Join(all, ',') == parts[0] + [','] + last;
    } else {
      JoinSnoc(parts[1..], last);
      var rest := Join(parts[1..], ',');
      assert parts[0] + [','] + (rest + ("," + last)) == (parts[0] + [','] + rest) + ("," + last);
    }
  }

  function Printed(prefix: string, dir: Option<string>): string {
    if dir.Some? then prefix + OnePass(dir.value) else ""
  }

  /** The option string in full, as overlayfs documents it. */
  lemma OptionsInFull(layers: Layers<string>)
    requires CommaFree(layers)
    ensures Options(layers)
            == Some("lowerdir=" + Join(OnePassAll(layers.lower), ':')
                    + Printed(",upperdir=", layers.upper) + Printed(",workdir=", layers.work))
  {
    OptionsAreParts(layers);
    var first := [LOWER + Join(OnePassAll(layers.lower), ':')];
    var text := first[0];
    var upper := if layers.upper.Some? then [UPPER + OnePass(layers.upper.value)] else [];
    var work := if layers.work.Some? then [WORK + OnePass(layers.work.value)] else [];
    assert Join(first, ',') == text;
    Appended(first, text, UPPER, ",upperdir=", layers.upper, upper);
    Appended(first + upper, text + Printed(",upperdir=", layers.upper), WORK, ",workdir=", layers.work, work);
  }

  lemma Appended(parts: seq<string>, text: string, key: string, prefix: string, dir: Option<string>, part: seq<string>)
    requires parts != [] && Join(parts, ',') == text && prefix == "," + key
    requires part == if dir.Some? then [key + OnePass(dir.value)] else []
    ensures Join(parts + part, ',') == text + Printed(prefix, dir)
  {
    if dir.Some? {
      JoinSnoc(parts, key + OnePass(dir.value));
      assert "," + (key + OnePass(dir.value)) == prefix + OnePass(dir.value);
    } else {
      assert parts + part == parts && text + "" == text;
    }
  }

  lemma OptionsParts(layers: Layers<string>)
    requires CommaFree(layers)
    ensures Options(layers).Some?
    ensures ReadBack(Options(layers).value)
            == Layers(NonEmpty(layers.lower),
                      if layers.upper == Some("") then None else layers.upper,
                      if layers.work == Some("") then None else layers.work)
  {
    OptionsAreParts(layers);
    SplitCommasOfJoin(OptionParts(layers));
    PartsAreFound(layers);
    LowerRoundTrip(layers.lower);
    if layers.upper.Some? { DirRoundTrip(layers.upper.value); }
    if layers.work.Some? { DirRoundTrip(layers.work.value); }
  }

  lemma PartsAreFound(layers: Layers<string>)
    ensures var parts := OptionParts(layers);
            && Find(parts, LOWER) == Some(Join(OnePassAll(layers.lower), ':'))
            && Find(parts, UPPER) == (if layers.upper.Some? then Some(OnePass(layers.upper.value)) else None)
            && Find(parts, WORK) == (if layers.work.Some? then Some(OnePass(layers.work.value)) else None)
  {
    FindParts(Join(OnePassAll(layers.lower), ':'),
              if layers.upper.Some? then [UPPER + OnePass(layers.upper.value)] else [],
              if layers.work.Some? then [WORK + OnePass(layers.work.value)] else []);
  }

  lemma FindParts(lower: string, upper: seq<string>, work: seq<string>)
    requires |upper| <= 1 && |work| <= 1
    requires upper != [] ==> UPPER <= upper[0]
    requires work != [] ==> WORK <= work[0]
    ensures var parts := [LOWER + lower] + upper + work;
            && Find(parts, LOWER) == Some(lower)
            && Find(parts, UPPER) == (if upper == [] then None else Some(upper[0][|UPPER|..]))
            && Find(parts, WORK) == (if work == [] then None else Some(work[0][|WORK|..]))
  {
    var parts := [LOWER + lower] + upper + work;
    OtherKey(LOWER + lower);
    assert parts[1..] == upper + work;
    assert Find(parts, UPPER) == Find(upper + work, UPPER);
    assert Find(parts, WORK) == Find(upper + work, WORK);
    if upper != [] {
      OtherKey(upper[0]);
      assert (upper + work)[0] == upper[0] && (upper + work)[1..] == work;
      assert Find(upper + work, WORK) == Find(work, WORK);
    } else {
      assert upper + work == work;
    }
    if work != [] {
      OtherKey(work[0]);
      assert work[1..] == [];
      assert Find(work, UPPER) == Find(work[1..], UPPER) == None;
    }
  }

  lemma OtherKey(part: string)
    ensures LOWER <= part ==> !(UPPER <= part) && !(WORK <= part)
    ensures UPPER <= part ==> !(WORK <= part)
  {
    assert LOWER <= part ==> part[0] == 'l';
    assert UPPER <= part ==> part[0] == 'u';
    assert WORK <= part ==> part[0] == 'w';
  }

  /** Printing succeeds exactly when no directory contains a comma. */
  lemma OptionsFailOnCommas(layers: Layers<string>)
    ensures Options(layers).Some? <==> CommaFree(layers)
  {
    EscapeAllIsOnePass(layers.lower);
  }

  /** What is printed reads back as the same layers, exactly when no directory is the empty string. */
  lemma OptionsRoundTrip(layers: Layers<string>)
    requires CommaFree(layers)
    ensures Options(layers).Some?
    ensures ReadBack(Options(layers).value) == layers <==> NoneEmpty(layers)
  {
    OptionsParts(layers);
    NonEmptyKeeps(layers.lower);
  }

  /** So two different sets of layers never print the same option string. */
  lemma OptionsAreInjective(a: Layers<string>, b: Layers<string>)
    requires CommaFree(a) && CommaFree(b) && NoneEmpty(a) && NoneEmpty(b)
    requires Options(a) == Options(b)
    ensures a == b
  {
    OptionsRoundTrip(a);
    OptionsRoundTrip(b);
  }
}
