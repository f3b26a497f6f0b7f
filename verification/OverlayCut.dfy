/** What is left of an overlay option string when its end is cut off: the last directory is missing or
    named by a proper prefix (src/rootfs/overlay.rs, `MAX_OPTION_BYTES` and `mount_at`). */
module OverlayCut {
  import opened Wrappers
  import opened OverlayOptions

  /** mount(2) takes one page of options, and the last byte of the page has to end the string. */
  const PAGE := 4096

  function Page(data: string): string {
    if |data| < PAGE then data else data[..PAGE - 1]
  }

  predicate ProperPrefix(a: string, b: string) {
    a != "" && |a| < |b| && a <= b
  }

  /** A list that lost its last entry, or the end of it. */
  predicate LastCut(list: seq<string>, whole: seq<string>) {
    || |list| < |whole|
    || (list != [] && |list| == |whole| && ProperPrefix(list[|list| - 1], whole[|whole| - 1]))
  }

  predicate DirCut(dir: Option<string>, whole: string) {
    dir.None? || ProperPrefix(dir.value, whole)
  }

  // ----- cutting one escaped name, a list of them, and a list of options

  /** A cut inside an escape drops the lone backslash. */
  lemma {:induction false} CutName(s: string, n: nat, current: string) returns (j: nat)
    requires n <= |OnePass(s)|
    ensures j <= |s| && (n < |OnePass(s)| ==> j < |s|)
    ensures Segments(OnePass(s)[..n], current) == [current + s[..j]]
  {
    if n == 0 || (n == 1 && |Escaped(s[0])| == 2) {
      j := 0;
      assert current + s[..0] == current;
      assert n == 1 ==> OnePass(s)[..n] == "\\";
    } else {
      var head := Escaped(s[0]);
      var rest := OnePass(s[1..])[..n - |head|];
      assert OnePass(s)[..n] == head + rest;
      assert (head + rest)[|head|..] == rest;
      j := CutName(s[1..], n - |head|, current + [s[0]]);
      assert current + [s[0]] + s[1..][..j] == current + s[..j + 1];
      j := j + 1;
    }
  }

  lemma CutAcross(first: string, sep: char, rest: string, n: nat)
    requires |first| < n <= |first| + 1 + |rest|
    ensures (first + [sep] + rest)[..n] == first + ([sep] + rest[..n - |first| - 1])
  {
  }

  lemma SegmentsAcross(name: string, rest: string)
    ensures Segments(OnePass(name) + ([':'] + rest), "") == [name] + Segments(rest, "")
  {
    SegmentsOfEscaped(name, [':'] + rest, "");
    assert "" + name == name && ([':'] + rest)[1..] == rest;
  }

  lemma JoinedNames(names: seq<string>)
    requires names != []
    ensures var text, first := Join(OnePassAll(names), ':'), OnePass(names[0]);
            if |names| == 1 then text == first
            else text == first + [':'] + Join(OnePassAll(names[1..]), ':')
  {
    assert OnePassAll(names)[1..] == OnePassAll(names[1..]);
  }

  lemma CutFirstName(name: string, rest: string, n: nat) returns (j: nat)
    requires n <= |OnePass(name)|
    ensures j <= |name| && (n < |OnePass(name)| ==> j < |name|)
    ensures Segments((OnePass(name) + rest)[..n], "") == [name[..j]]
  {
    j := CutName(name, n, "");
    assert (OnePass(name) + rest)[..n] == OnePass(name)[..n];
    assert "" + name[..j] == name[..j];
  }

  lemma {:induction false} CutNames(names: seq<string>, n: nat) returns (k: nat, j: nat)
    requires names != [] && n < |Join(OnePassAll(names), ':')|
    ensures k < |names| && j <= |names[k]| && (k == |names| - 1 ==> j < |names[k]|)
    ensures Segments(Join(OnePassAll(names), ':')[..n], "") == names[..k] + [names[k][..j]]
  {
    JoinedNames(names);
    var first := OnePass(names[0]);
    if |names| == 1 {
      k := 0;
      j := CutFirstName(names[0], "", n);
      assert first + "" == first;
    } else {
      var rest := Join(OnePassAll(names[1..]), ':');
      if n <= |first| {
        k := 0;
        j := CutFirstName(names[0], [':'] + rest, n);
        assert first + [':'] + rest == first + ([':'] + rest);
      } else {
        k, j := CutNames(names[1..], n - |first| - 1);
        CutAcross(first, ':', rest, n);
        SegmentsAcross(names[0], rest[..n - |first| - 1]);
        Prepended(names, k, names[1..][k][..j]);
        k := k + 1;
      }
    }
  }

  lemma Prepended(list: seq<string>, k: nat, last: string)
    requires k < |list| - 1
    ensures [list[0]] + (list[1..][..k] + [last]) == list[..k + 1] + [last]
  {
  }

  lemma {:induction false} CutOptions(parts: seq<string>, n: nat) returns (k: nat, m: nat)
    requires parts != [] && n < |Join(parts, ',')|
    requires forall p :: p in parts ==> ',' !in p
    ensures k < |parts| && m <= |parts[k]| && (k == |parts| - 1 ==> m < |parts[k]|)
    ensures SplitCommas(Join(parts, ',')[..n], "") == parts[..k] + [parts[k][..m]]
  {
    var first, text := parts[0], Join(parts, ',');
    assert first in parts;
    if n <= |first| {
      k, m := 0, n;
      assert text[..n] == first[..n];
      SplitCommasOf(first[..n], "", "");
      assert first[..n] + "" == first[..n] && "" + first[..n] == first[..n];
    } else {
      var rest := Join(parts[1..], ',');
      assert text == first + [','] + rest;
      var r := n - |first| - 1;
      k, m := CutOptions(parts[1..], r);
      var tail := [','] + rest[..r];
      CutAcross(first, ',', rest, n);
      SplitCommasOf(first, tail, "");
      assert "" + first == first && tail[1..] == rest[..r];
      assert [first] + parts[1..][..k] == parts[..k + 1];
      k := k + 1;
    }
  }

  /** Looking for the key of the last option among what a cut left. */
  lemma {:induction false} FindCut(parts: seq<string>, k: nat, m: nat, key: string, value: string)
    requires k < |parts| && m <= |parts[k]| && (k == |parts| - 1 ==> m < |parts[k]|)
    requires key != "" && parts[|parts| - 1] == key + value
    requires forall i :: 0 <= i < |parts| - 1 ==> parts[i] != "" && parts[i][0] != key[0]
    ensures var found := Find(parts[..k] + [parts[k][..m]], key);
            found.Some? ==> |found.value| < |value| && found.value == value[..|found.value|]
  {
    var list := parts[..k] + [parts[k][..m]];
    assert list[1..] == if k == 0 then [] else parts[1..][..k - 1] + [parts[1..][k - 1][..m]];
    if |parts| == 1 {
      if key <= list[0] {
        assert list[0][|key|..] == value[..m - |key|];
      }
    } else if k > 0 {
      FindCut(parts[1..], k - 1, m, key, value);
    }
  }

  // ----- what is read

  lemma CutLower(lower: seq<string>, n: nat)
    requires "" !in lower && n < |Join(OnePassAll(lower), ':')|
    ensures LastCut(SplitLowerdir(Join(OnePassAll(lower), ':')[..n]), lower)
  {
    var k, j := CutNames(lower, n);
    var cut := lower[k][..j];
    assert "" !in lower[..k];
    NonEmptyOfSnoc(lower[..k], cut);
  }

  lemma {:induction false} NonEmptyOfSnoc(parts: seq<string>, last: string)
    requires "" !in parts
    ensures NonEmpty(parts + [last]) == parts + if last == "" then [] else [last]
  {
    if parts == [] {
      assert [last][1..] == [];
    } else {
      assert (parts + [last])[1..] == parts[1..] + [last];
      NonEmptyOfSnoc(parts[1..], last);
    }
  }

  lemma CutDir(dir: string, n: nat)
    requires n < |OnePass(dir)|
    ensures DirCut(ReadDir(Some(OnePass(dir)[..n])), dir)
  {
    var j := CutName(dir, n, "");
    assert "" + dir[..j] == dir[..j];
    NonEmptyOfSnoc([], dir[..j]);
    assert [] + [dir[..j]] == [dir[..j]];
  }

  /** Whatever the cut, the last directory that was printed is lost or shortened. */
  lemma CutLosesTheLast(layers: Layers<string>, n: nat)
    requires CommaFree(layers) && NoneEmpty(layers) && layers.lower != []
    requires Options(layers).Some? && n < |Options(layers).value|
    ensures var read := ReadBack(Options(layers).value[..n]);
            if layers.work.Some? then DirCut(read.work, layers.work.value)
            else if layers.upper.Some? then DirCut(read.upper, layers.upper.value)
            else LastCut(read.lower, layers.lower)
  {
    OptionsAreParts(layers);
    var parts := OptionParts(layers);
    var k, m := CutOptions(parts, n);
    var left := parts[..k] + [parts[k][..m]];
    if layers.work.Some? {
      FindCut(parts, k, m, WORK, OnePass(layers.work.value));
      if Find(left, WORK).Some? { CutDir(layers.work.value, |Find(left, WORK).value|); }
    } else if layers.upper.Some? {
      FindCut(parts, k, m, UPPER, OnePass(layers.upper.value));
      if Find(left, UPPER).Some? { CutDir(layers.upper.value, |Find(left, UPPER).value|); }
    } else {
      FindCut(parts, k, m, LOWER, Join(OnePassAll(layers.lower), ':'));
      if Find(left, LOWER).Some? { CutLower(layers.lower, |Find(left, LOWER).value|); }
    }
  }
}
