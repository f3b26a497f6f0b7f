/** Turning a mount destination into a path under the rootfs (src/rootfs/mounts.rs, `resolve`). A path
    is the sequence of its components, as `Path::components` yields them. */
module Resolve {

  datatype Component = Root | Current | Parent | Normal(name: string)

  type Path = seq<Component>

  /** `PathBuf::pop`: drops the last component unless there is none or only the root. */
  function Popped(p: Path): Path {
    if p == [] || p == [Root] then p else p[..|p| - 1]
  }

  /** The stack machine: names are pushed, `..` pops and does nothing at the bottom. */
  function Walk(stack: seq<string>, destination: Path): seq<string>
    decreases |destination|
  {
    if destination == [] then stack
    else match destination[0]
      case Normal(name) => Walk(stack + [name], destination[1..])
      case Parent => Walk(if stack == [] then [] else stack[..|stack| - 1], destination[1..])
      case _ => Walk(stack, destination[1..])
  }

  function Named(names: seq<string>): (p: Path)
    ensures |p| == |names| && forall i :: 0 <= i < |p| ==> p[i] == Normal(names[i])
  {
    seq(|names|, i requires 0 <= i < |names| => Normal(names[i]))
  }

  lemma NamedConcat(a: seq<string>, b: seq<string>)
    ensures Named(a + b) == Named(a) + Named(b)
  {
  }

  /** `resolve`. The result is the rootfs followed by what the stack machine ends with, whatever the
      rootfs is: the check at the bottom, not the shape of the rootfs, keeps `..` inside. */
  method Resolve(rootfs: Path, destination: Path) returns (out: Path)
    ensures out == rootfs + Named(Walk([], destination))
  {
    out := rootfs;
    ghost var stack: seq<string> := [];
    for i := 0 to |destination|
      invariant out == rootfs + Named(stack)
      invariant Walk(stack, destination[i..]) == Walk([], destination)
    {
      assert destination[i..][1..] == destination[i + 1..];
      match destination[i] {
        case Normal(name) =>
          NamedConcat(stack, [name]);
          out := out + [Normal(name)];
          stack := stack + [name];
        case Parent =>
          if out != rootfs {
            assert rootfs + Named([]) == rootfs;
            ghost var last := |stack| - 1;
            NamedConcat(stack[..last], stack[last..]);
            assert stack == stack[..last] + stack[last..];
            assert out[|out| - 1].Normal? && Popped(out) == rootfs + Named(stack[..last]);
            out := Popped(out);
            stack := stack[..last];
          } else {
            assert stack == [] by {
              assert |out| == |rootfs| + |stack|;
            }
          }
        case _ =>
      }
    }
  }

  /** Pushing names only appends them. */
  lemma {:induction false} WalkNames(stack: seq<string>, names: seq<string>)
    ensures Walk(stack, Named(names)) == stack + names
    decreases |names|
  {
    if names != [] {
      assert Named(names)[1..] == Named(names[1..]);
      WalkNames(stack + [names[0]], names[1..]);
      assert stack + [names[0]] + names[1..] == stack + names;
    } else {
      assert stack + names == stack;
    }
  }

  /** Resolving what was resolved, as seen from the rootfs, changes nothing. */
  lemma ResolvedIsFixed(destination: Path)
    ensures Walk([], [Root] + Named(Walk([], destination))) == Walk([], destination)
    ensures Walk([], Named(Walk([], destination))) == Walk([], destination)
  {
    var names := Walk([], destination);
    assert ([Root] + Named(names))[1..] == Named(names);
    WalkNames([], names);
    assert [] + names == names;
  }

  /** The result goes on where an earlier part of the destination stopped. */
  lemma {:induction false} WalkInParts(stack: seq<string>, first: Path, second: Path)
    ensures Walk(stack, first + second) == Walk(Walk(stack, first), second)
    decreases |first|
  {
    if first == [] {
      assert first + second == second;
    } else {
      assert (first + second)[1..] == first[1..] + second;
      match first[0]
      case Normal(name) => WalkInParts(stack + [name], first[1..], second);
      case Parent => WalkInParts(if stack == [] then [] else stack[..|stack| - 1], first[1..], second);
      case _ => WalkInParts(stack, first[1..], second);
    }
  }

  /** Leading `..` components, however many, lead nowhere. */
  lemma {:induction false} CannotClimbOut(climb: Path, destination: Path)
    requires forall i :: 0 <= i < |climb| ==> !climb[i].Normal?
    ensures Walk([], climb + destination) == Walk([], destination)
    decreases |climb|
  {
    WalkInParts([], climb, destination);
    if climb != [] {
      CannotClimbOut(climb[1..], []);
      assert climb[1..] + [] == climb[1..];
    }
  }

  /** A root or a `.` means nothing anywhere: an absolute destination is one below the rootfs. */
  lemma RootAndCurrentAreIgnored(before: Path, c: Component, after: Path)
    requires c == Root || c == Current
    ensures Walk([], before + [c] + after) == Walk([], before + after)
  {
    assert before + [c] + after == before + ([c] + after);
    assert ([c] + after)[1..] == after;
    WalkInParts([], before, [c] + after);
    WalkInParts([], before, after);
  }

  /** A name and the `..` after it cancel anywhere. */
  lemma ParentUndoesName(before: Path, name: string, after: Path)
    ensures Walk([], before + [Normal(name), Parent] + after) == Walk([], before + after)
  {
    var stack := Walk([], before);
    WalkInParts([], before, [Normal(name), Parent] + after);
    WalkInParts([], before, after);
    WalkInParts(stack, [Normal(name), Parent], after);
    assert before + [Normal(name), Parent] + after == before + ([Normal(name), Parent] + after);
    assert Walk(stack, [Normal(name), Parent]) == stack by {
      assert [Normal(name), Parent][1..] == [Parent] && [Parent][1..] == [];
      assert (stack + [name])[..|stack|] == stack;
    }
  }
}
