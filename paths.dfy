/** The field path the readers keep while descending into a value (a `Deque<String>` of field
    names) and its printed form, `PathsPrinter`. */
module Paths {
  import opened Wrappers
  import opened Text

  /** `PathsPrinter.print(path)`: the segments joined with dots. */
  function Print(path: seq<string>): string
  {
    Join(path, ".")
  }

  /** `PathsPrinter.print(path, segment)`: the path of a child called `segment`. */
  function PrintWith(path: seq<string>, segment: string): string
  {
    if |path| == 0 then segment else Print(path) + "." + segment
  }

  /** Printing a path extended by a segment is printing the child path: the special case for
      the empty path is exactly what keeps a leading dot out. */
  lemma PrintWithIsChildPath(path: seq<string>, segment: string)
    ensures PrintWith(path, segment) == Print(path + [segment])
  {
    if |path| == 0 {
      assert path + [segment] == [segment];
    } else {
      JoinSnoc(path, ".", segment);
    }
  }

  /** `path.peekLast()`: the last segment, None for an empty path. */
  function PeekLast(path: seq<string>): (r: Option<string>)
    ensures r.None? <==> |path| == 0
    ensures r.Some? ==> r.value == path[|path| - 1]
  {
    if |path| == 0 then None else Some(path[|path| - 1])
  }

  /** Whether a read of the field called `name` pushes a segment:
      `!name.equals(path.peekLast())`. */
  predicate Pushes(path: seq<string>, name: string)
  {
    PeekLast(path) != Some(name)
  }

  /** The path while a read of the field called `name` runs: the name pushed unless it is
      already the last segment. */
  function Enter(path: seq<string>, name: string): (entered: seq<string>)
    ensures |entered| > 0 && entered[|entered| - 1] == name
    ensures path <= entered
    ensures |entered| == |path| + (if Pushes(path, name) then 1 else 0)
  {
    if Pushes(path, name) then path + [name] else path
  }

  /** The mutable path a reader threads through a conversion, an `ArrayDeque<String>`. */
  class PathDeque {
    var segments: seq<string>

    constructor ()
      ensures segments == []
    {
      segments := [];
    }

    /** `peekLast()`. */
    method Last() returns (last: Option<string>)
      ensures last == PeekLast(segments)
    {
      if |segments| == 0 {
        last := None;
      } else {
        last := Some(segments[|segments| - 1]);
      }
    }

    /** `addLast(segment)`. */
    method AddLast(segment: string)
      modifies this
      ensures segments == old(segments) + [segment]
    {
      segments := segments + [segment];
    }

    /** `removeLast()`, defined on a non-empty deque. */
    method RemoveLast() returns (removed: string)
      requires |segments| > 0
      modifies this
      ensures segments == old(segments)[..|old(segments)| - 1]
      ensures removed == old(segments)[|old(segments)| - 1]
    {
      removed := segments[|segments| - 1];
      segments := segments[..|segments| - 1];
    }
  }
}
