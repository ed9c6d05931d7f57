/** The parts of `pathlib` the tooling uses on POSIX: parts, the last name, and safe relative paths. */
module PosixPath {
  import opened PyText

  /** The pieces between slashes that `Path.parts` keeps. */
  function Parts(path: string): seq<string> {
    PartsFrom([], path)
  }

  function Piece(piece: string): seq<string> {
    if piece == [] || piece == "." then [] else [piece]
  }

  function PartsFrom(piece: string, rest: string): seq<string>
    decreases |rest|
  {
    if rest == [] then Piece(piece)
    else if rest[0] == '/' then Piece(piece) + PartsFrom([], rest[1..])
    else PartsFrom(piece + [rest[0]], rest[1..])
  }

  /** `Path(path).name` */
  function Name(path: string): string {
    var parts := Parts(path);
    if parts == [] then [] else parts[|parts| - 1]
  }

  function Join(parts: seq<string>): string {
    if parts == [] then [] else if |parts| == 1 then parts[0] else parts[0] + "/" + Join(parts[1..])
  }

  /** `Path(path).as_posix()` for a relative path. */
  function AsPosix(path: string): string {
    if Parts(path) == [] then "." else Join(Parts(path))
  }

  predicate IsSafe(path: string) {
    Strip(path) != [] && !("/" <= path) && ".." !in Parts(path)
  }

  predicate Slashless(s: string) {
    '/' !in s
  }

  /** A name as a directory lists it. */
  predicate IsPart(piece: string) {
    piece != [] && piece != "." && '/' !in piece
  }

  lemma {:induction false} PartsOfPiece(before: string, piece: string, rest: string)
    requires '/' !in piece
    ensures PartsFrom(before, piece + rest) == PartsFrom(before + piece, rest)
    decreases |piece|
  {
    if piece == [] {
      assert piece + rest == rest && before + piece == before;
    } else {
      assert (piece + rest)[1..] == piece[1..] + rest;
      assert piece[0] in piece;
      assert before + [piece[0]] + piece[1..] == before + piece;
      PartsOfPiece(before + [piece[0]], piece[1..], rest);
    }
  }

  /** A listed name is its own only part. */
  lemma NameOfPart(piece: string)
    requires IsPart(piece)
    ensures Parts(piece) == [piece] && Name(piece) == piece
  {
    PartsOfPiece([], piece, []);
    assert piece + [] == piece && [] + piece == piece;
  }

  /** A path below a directory. */
  lemma PartsBelow(dir: string, path: string)
    requires IsPart(dir)
    ensures Parts(dir + "/" + path) == [dir] + Parts(path)
  {
    var rest := "/" + path;
    assert dir + "/" + path == dir + rest && rest[1..] == path && [] + dir == dir;
    PartsOfPiece([], dir, rest);
  }

  lemma {:induction false} PartsFromConcat(piece: string, a: string, b: string)
    ensures PartsFrom(piece, a + "/" + b) == PartsFrom(piece, a) + Parts(b)
    decreases |a|
  {
    hide Piece;
    if a == [] {
      assert a + "/" + b == ['/'] + b;
      assert (['/'] + b)[1..] == b;
    } else {
      assert (a + "/" + b)[1..] == a[1..] + "/" + b;
      if a[0] == '/' {
        PartsFromConcat([], a[1..], b);
      } else {
        PartsFromConcat(piece + [a[0]], a[1..], b);
      }
    }
  }

  /** The parts of a joined path. */
  lemma PartsConcat(a: string, b: string)
    ensures Parts(a + "/" + b) == Parts(a) + Parts(b)
  {
    PartsFromConcat([], a, b);
  }

  lemma NoParts()
    ensures Parts([]) == []
  {
  }

  /** Joining parts and splitting again gives the parts back. */
  lemma {:induction false} PartsOfJoin(parts: seq<string>)
    requires forall i :: 0 <= i < |parts| ==> IsPart(parts[i])
    ensures Parts(Join(parts)) == parts
  {
    NoParts();
    hide Parts, IsPart;
    if |parts| == 1 {
      NameOfPart(parts[0]);
      assert parts == [parts[0]];
    } else if parts != [] {
      PartsBelow(parts[0], Join(parts[1..]));
      PartsOfJoin(parts[1..]);
      assert parts == [parts[0]] + parts[1..];
    }
  }

  lemma JoinTwo(a: string, b: string)
    ensures Join([a, b]) == a + "/" + b
  {
    assert [a, b][1..] == [b];
  }

  lemma JoinThree(a: string, b: string, c: string)
    ensures Join([a, b, c]) == a + "/" + b + "/" + c
  {
    assert [a, b, c][1..] == [b, c];
    JoinTwo(b, c);
  }

  lemma JoinFour(a: string, b: string, c: string, d: string)
    ensures Join([a, b, c, d]) == a + "/" + b + "/" + c + "/" + d
  {
    assert [a, b, c, d][1..] == [b, c, d];
    JoinThree(b, c, d);
  }

  lemma {:induction false} PartsAreParts(piece: string, rest: string)
    requires '/' !in piece
    ensures forall i :: 0 <= i < |PartsFrom(piece, rest)| ==> IsPart(PartsFrom(piece, rest)[i])
    decreases |rest|
  {
    if rest != [] {
      if rest[0] == '/' {
        PartsAreParts([], rest[1..]);
      } else {
        PartsAreParts(piece + [rest[0]], rest[1..]);
      }
    }
  }

  /** Normalising twice is normalising once, and the normal form decides the parts. */
  lemma AsPosixNormal(path: string)
    ensures Parts(AsPosix(path)) == Parts(path) && AsPosix(AsPosix(path)) == AsPosix(path)
    ensures AsPosix(path) == "." <==> Parts(path) == []
  {
    PartsAreParts([], path);
    PartsOfJoin(Parts(path));
    assert Parts(".") == [];
  }

  lemma SameNormalForm(p: string, q: string)
    ensures AsPosix(p) == AsPosix(q) <==> Parts(p) == Parts(q)
  {
    AsPosixNormal(p);
    AsPosixNormal(q);
  }

  /** A normal form never starts with a slash. */
  lemma AsPosixIsRelative(path: string)
    ensures !("/" <= AsPosix(path))
  {
    var parts := Parts(path);
    PartsAreParts([], path);
    if parts != [] {
      assert IsPart(parts[0]);
      assert AsPosix(path)[0] == parts[0][0];
      assert parts[0][0] in parts[0];
    }
  }
}
