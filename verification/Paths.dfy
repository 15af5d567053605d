// Path names: skipelem takes a path apart into the components that namex walks along.
// Paths are C strings without their NUL.
module Paths {
  import opened Wrappers
  import opened Blocks
  import opened Dirs

  const SLASH: Byte := 47

  // the part before the first slash
  function UpToSlash(path: seq<Byte>): (r: seq<Byte>)
    ensures r <= path && SLASH !in r && (|r| < |path| ==> path[|r|] == SLASH)
  {
    if path == [] || path[0] == SLASH then [] else [path[0]] + UpToSlash(path[1..])
  }

  /** The parts of a path between its slashes, empty ones too. */
  function Split(path: seq<Byte>): (parts: seq<seq<Byte>>)
    ensures parts != []
    decreases |path|
  {
    var first := UpToSlash(path);
    if |first| == |path| then [path] else [first] + Split(path[|first| + 1..])
  }

  function NonEmpty(parts: seq<seq<Byte>>): seq<seq<Byte>> {
    if parts == [] then []
    else (if parts[0] == [] then [] else [Cut(parts[0])]) + NonEmpty(parts[1..])
  }

  /** The components of a path: its non-empty parts, cut to DIRSIZ. */
  function Components(path: seq<Byte>): seq<seq<Byte>> {
    NonEmpty(Split(path))
  }

  lemma SplitSlash(path: seq<Byte>)
    requires path != [] && path[0] == SLASH
    ensures Components(path) == Components(path[1..])
  {
    assert UpToSlash(path) == [];
    assert Split(path)[1..] == Split(path[1..]);
  }

  lemma NoComponents()
    ensures Components([]) == []
  {
    assert Split([]) == [[]] && Split([])[1..] == [];
  }

  lemma NonEmptyFirst(first: seq<Byte>, parts: seq<seq<Byte>>)
    requires first != []
    ensures NonEmpty([first] + parts) == [Cut(first)] + NonEmpty(parts)
  {
    assert ([first] + parts)[1..] == parts;
  }

  // no slash at the start, so there is a first component
  lemma SplitFirst(path: seq<Byte>, n: nat)
    requires path != [] && path[0] != SLASH && n == |UpToSlash(path)|
    ensures 0 < n <= |path| && Components(path) == [Cut(path[..n])] + Components(path[n..])
  {
    var first := UpToSlash(path);
    assert first == path[..n];
    if n < |path| {
      NonEmptyFirst(first, Split(path[n + 1..]));
      SplitSlash(path[n..]);
      assert path[n..][1..] == path[n + 1..];
    } else {
      NonEmptyFirst(first, []);
      NoComponents();
      assert path[..n] == path && path[n..] == [] && [first] + [] == [path];
    }
  }

  // the end of the first part is where a slash or the end is met
  lemma {:induction false} UpToSlashEnds(path: seq<Byte>, n: nat)
    requires n <= |path| && SLASH !in path[..n] && (n < |path| ==> path[n] == SLASH)
    ensures |UpToSlash(path)| == n
  {
    if n > 0 {
      assert path[0] == path[..n][0];
      assert path[1..][..n - 1] == path[..n][1..];
      UpToSlashEnds(path[1..], n - 1);
    }
  }

  // leading slashes do not matter
  method SkipSlashes(path: seq<Byte>) returns (rest: seq<Byte>)
    ensures Components(rest) == Components(path) && (rest != [] ==> rest[0] != SLASH) && |rest| <= |path|
    ensures forall b :: b in rest ==> b in path
  {
    rest := path;
    while rest != [] && rest[0] == SLASH
      invariant Components(rest) == Components(path) && |rest| <= |path| && forall b :: b in rest ==> b in path
    {
      SplitSlash(rest);
      rest := rest[1..];
    }
  }

  /** skipelem: the first component and the rest of the path, without leading slashes. */
  method Skipelem(path: seq<Byte>) returns (r: Option<(seq<Byte>, seq<Byte>)>)
    ensures r.None? <==> Components(path) == []
    ensures r.Some? ==>
              var (name, rest) := r.value;
              && Components(path) == [name] + Components(rest) && |rest| < |path|
              && (rest == [] <==> Components(rest) == []) && (0 !in path ==> 0 !in name && 0 !in rest)
  {
    NoComponents();
    var s := SkipSlashes(path);
    if s == [] {
      return None;
    }
    var len := 0;
    while len < |s| && s[len] != SLASH
      invariant len <= |s| && SLASH !in s[..len]
    {
      len := len + 1;
    }
    UpToSlashEnds(s, len);
    SplitFirst(s, len);
    var name := if len >= DIRSIZ then s[..DIRSIZ] else s[..len];
    assert name == Cut(s[..len]);
    var rest := SkipSlashes(s[len..]);
    if rest != [] {
      SplitFirst(rest, |UpToSlash(rest)|);
    }
    return Some((name, rest));
  }
}
