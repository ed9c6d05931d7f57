/** What the text tests mean, said of the characters: white space, order, placeholders, digests, safe paths. */
module TextMeaning {
  import opened PyText
  import opened Hashing
  import AttestationRecord
  import EvidenceGraph
  import PosixPath

  // ---------------------------------------------------------------- characters

  const SPACES := [0x9, 0xa, 0xb, 0xc, 0xd, 0x1c, 0x1d, 0x1e, 0x1f, 0x20, 0x85, 0xa0, 0x1680, 0x2000, 0x2001, 0x2002, 0x2003,
                   0x2004, 0x2005, 0x2006, 0x2007, 0x2008, 0x2009, 0x200a, 0x2028, 0x2029, 0x202f, 0x205f, 0x3000]

  const BREAKS := [0xa, 0xb, 0xc, 0xd, 0x1c, 0x1d, 0x1e, 0x85, 0x2028, 0x2029]

  lemma SpacesMean(c: char)
    ensures IsSpace(c) <==> c as int in SPACES
  {
    hide IsBreak;
    var n := c as int;
    if 0x9 <= n <= 0xd {
      assert SPACES[n - 9] == n;
    } else if 0x1c <= n <= 0x20 {
      assert SPACES[n - 0x1c + 5] == n;
    } else if 0x2000 <= n <= 0x200a {
      assert SPACES[n - 0x2000 + 13] == n;
    } else {
      assert n in [0x85, 0xa0, 0x1680, 0x2028, 0x2029, 0x202f, 0x205f, 0x3000] ==> n in SPACES;
    }
  }

  lemma BreaksMean(c: char)
    ensures IsBreak(c) <==> c as int in BREAKS
  {
    var n := c as int;
    if 0xa <= n <= 0xd {
      assert BREAKS[n - 0xa] == n;
    } else if 0x1c <= n <= 0x1e {
      assert BREAKS[n - 0x1c + 4] == n;
    }
  }

  /** The two tables; a line break is always white space. */
  lemma CharactersMean(c: char)
    ensures IsSpace(c) <==> c as int in SPACES
    ensures IsBreak(c) <==> c as int in BREAKS
    ensures IsBreak(c) ==> IsSpace(c)
  {
    hide SPACES, BREAKS;
    SpacesMean(c);
    BreaksMean(c);
  }

  predicate Blank(s: string) {
    forall i :: 0 <= i < |s| ==> s[i] as int in SPACES
  }

  lemma BlankIsSpace(s: string)
    ensures Blank(s) <==> forall i :: 0 <= i < |s| ==> IsSpace(s[i])
  {
    hide IsSpace, IsBreak, SPACES, BREAKS;
    forall i | 0 <= i < |s|
      ensures IsSpace(s[i]) <==> s[i] as int in SPACES
    {
      CharactersMean(s[i]);
    }
  }

  // ---------------------------------------------------------------- strip

  /** `s` is `w` with white space around it, and `w` has none at its ends. */
  ghost predicate Surrounds(s: string, left: string, w: string, right: string) {
    && s == left + w + right && Blank(left) && Blank(right)
    && (w != [] ==> w[0] as int !in SPACES && w[|w| - 1] as int !in SPACES)
  }

  /** `strip()` removes exactly the white space around a text. */
  lemma StripMeans(s: string, w: string)
    ensures Strip(s) == w <==> exists left, right :: Surrounds(s, left, w, right)
  {
    hide IsSpace, IsBreak, SPACES, BREAKS, Blank;
    if Strip(s) == w {
      StripSurrounds(s);
    }
    if left, right :| Surrounds(s, left, w, right) {
      SurroundedStrips(s, left, w, right);
    }
  }

  lemma StripSurrounds(s: string)
    ensures exists left, right :: Surrounds(s, left, Strip(s), right)
  {
    hide IsSpace, IsBreak, SPACES, BREAKS, Blank;
    var r, w := TrimRight(s), Strip(s);
    TrimRightShape(s);
    TrimLeftShape(r);
    StripShape(s);
    var left, right := r[..|r| - |w|], s[|r|..];
    assert s == left + w + right;
    BlankIsSpace(left);
    BlankIsSpace(right);
    if w != [] {
      CharactersMean(w[0]);
      CharactersMean(w[|w| - 1]);
    }
    assert Surrounds(s, left, w, right);
  }

  lemma SurroundedStrips(s: string, left: string, w: string, right: string)
    requires Surrounds(s, left, w, right)
    ensures Strip(s) == w
  {
    hide IsSpace, IsBreak, SPACES, BREAKS, Blank;
    BlankIsSpace(left);
    BlankIsSpace(right);
    TrimRightAppend(left + w, right);
    if w == [] {
      TrimRightAppend([], left);
      assert [] + left == left + w;
    } else {
      CharactersMean(w[0]);
      CharactersMean(w[|w| - 1]);
      assert (left + w)[|left + w| - 1] == w[|w| - 1];
      TrimLeftPadded(left, w);
    }
  }

  // ---------------------------------------------------------------- order

  /** `a` comes before `b` at their first difference, or ends there. */
  ghost predicate FirstBefore(a: string, b: string, k: nat) {
    k <= |a| && k < |b| && a[..k] == b[..k] && (k == |a| || a[k] < b[k])
  }

  /** Python's order on strings is decided at the first difference. */
  lemma {:induction false} LessMeans(a: string, b: string)
    ensures Less(a, b) <==> exists k: nat :: FirstBefore(a, b, k)
  {
    if b == [] || a == [] || a[0] != b[0] {
      if Less(a, b) {
        assert FirstBefore(a, b, 0);
      }
    } else {
      LessMeans(a[1..], b[1..]);
      if Less(a, b) {
        var k: nat :| FirstBefore(a[1..], b[1..], k);
        assert a[..k + 1] == [a[0]] + a[1..][..k] && b[..k + 1] == [b[0]] + b[1..][..k];
        assert FirstBefore(a, b, k + 1);
      }
      if k: nat :| FirstBefore(a, b, k) {
        assert a[1..][..k - 1] == a[..k][1..] && b[1..][..k - 1] == b[..k][1..];
        assert FirstBefore(a[1..], b[1..], k - 1);
      }
    }
  }

  // ---------------------------------------------------------------- placeholders

  /** The words that stand for evidence not yet there: to do, to be decided, to be collected, pending. */
  const UNFILLED := ["", "TODO", "TBD", "TO_BE_COLLECTED", "PLACEHOLDER", "not_collected", "NOT_COLLECTED", "pending", "PENDING"]

  /** `value` is one of `words` with any white space around it. */
  ghost predicate IsOneOf(value: string, words: seq<string>) {
    exists i, left, right :: 0 <= i < |words| && Surrounds(value, left, words[i], right)
  }

  lemma StripIsOneOf(value: string, words: seq<string>)
    ensures Strip(value) in words <==> IsOneOf(value, words)
  {
    hide Strip, Surrounds;
    if i :| 0 <= i < |words| && words[i] == Strip(value) {
      StripMeans(value, words[i]);
      var left, right :| Surrounds(value, left, words[i], right);
    }
    if i, left, right :| 0 <= i < |words| && Surrounds(value, left, words[i], right) {
      StripMeans(value, words[i]);
    }
  }

  /** The graph knows nine such words, the verification records the six that mean not yet collected. */
  lemma PlaceholdersMean(value: string)
    ensures EvidenceGraph.IsPlaceholder(value) <==> IsOneOf(value, UNFILLED)
    ensures AttestationRecord.IsPlaceholder(value) <==> IsOneOf(value, [UNFILLED[0], UNFILLED[3]] + UNFILLED[5..])
  {
    hide Strip, IsOneOf;
    StripIsOneOf(value, UNFILLED);
    var uncollected := [UNFILLED[0], UNFILLED[3]] + UNFILLED[5..];
    StripIsOneOf(value, uncollected);
    assert uncollected == ["", "TO_BE_COLLECTED", "not_collected", "NOT_COLLECTED", "pending", "PENDING"];
  }

  // ---------------------------------------------------------------- digests

  const HEX_DIGITS := "0123456789abcdef"

  lemma HexDigitMeans(c: char)
    ensures c in HEX_DIGITS <==> IsDigit(c) || 'a' <= c <= 'f'
  {
    if '0' <= c <= '9' {
      assert HEX_DIGITS[c as int - '0' as int] == c;
    } else if 'a' <= c <= 'f' {
      assert HEX_DIGITS[c as int - 'a' as int + 10] == c;
    }
  }

  lemma HexMeans(s: string, n: nat)
    ensures IsHex(s, n) <==> |s| == n && forall i :: 0 <= i < n ==> s[i] in HEX_DIGITS
  {
    hide HEX_DIGITS;
    forall i | 0 <= i < |s|
      ensures s[i] in HEX_DIGITS <==> IsDigit(s[i]) || 'a' <= s[i] <= 'f'
    {
      HexDigitMeans(s[i]);
    }
  }

  /** A digest is sixty-four of the sixteen digits; a real one is not the row of zeros. */
  lemma DigestsMean(s: string)
    ensures IsSha256(s) <==> |s| == 64 && forall i :: 0 <= i < 64 ==> s[i] in HEX_DIGITS
    ensures IsRealSha256(s) <==> IsSha256(s) && s != seq(64, _ => '0')
  {
    hide HEX_DIGITS, IsHex;
    HexMeans(s, 64);
    var zeros: string := seq(64, _ => '0');
    if |s| == 64 && s != zeros {
      assert exists i :: 0 <= i < 64 && s[i] != zeros[i];
    }
  }

  // ---------------------------------------------------------------- paths

  /** The path has a piece `..` between slashes or its ends. */
  ghost predicate Climbs(path: string, before: string, after: string) {
    && path == before + ".." + after
    && (before == [] || before[|before| - 1] == '/') && (after == [] || after[0] == '/')
  }

  lemma {:induction false} ClimbsIsPart(path: string)
    ensures (exists before, after :: Climbs(path, before, after)) ==> ".." in PosixPath.Parts(path)
  {
    if before, after :| Climbs(path, before, after) {
      var inner := ".." + after;
      assert ".." in PosixPath.Parts(inner) by {
        if after == [] {
          assert inner == "..";
          PosixPath.NameOfPart("..");
        } else {
          assert inner == ".." + "/" + after[1..];
          PosixPath.PartsBelow("..", after[1..]);
        }
      }
      if before != [] {
        assert path == before[..|before| - 1] + "/" + inner;
        PosixPath.PartsConcat(before[..|before| - 1], inner);
      } else {
        assert path == inner;
      }
    }
  }

  /** Splitting at the first slash. */
  lemma {:induction false} PartClimbs(path: string)
    requires ".." in PosixPath.Parts(path)
    ensures exists before, after :: Climbs(path, before, after)
    decreases |path|
  {
    hide PosixPath.Parts;
    var k := Find(path, '/');
    assert '/' !in path[..k];
    PiecesOf(path[..k]);
    if k == |path| {
      assert path[..k] == path;
      assert path == [] + ".." + [];
      assert Climbs(path, [], []);
    } else {
      var rest := path[k + 1..];
      assert path == path[..k] + "/" + rest;
      PosixPath.PartsConcat(path[..k], rest);
      if path[..k] == ".." {
        assert path == [] + ".." + path[k..];
        assert Climbs(path, [], path[k..]);
      } else {
        PartClimbs(rest);
        var before, after :| Climbs(rest, before, after);
        assert path == (path[..k + 1] + before) + ".." + after;
        assert Climbs(path, path[..k + 1] + before, after);
      }
    }
  }

  lemma PiecesOf(piece: string)
    requires '/' !in piece
    ensures ".." in PosixPath.Parts(piece) ==> piece == ".."
  {
    PosixPath.PartsOfPiece([], piece, []);
    assert piece + [] == piece && [] + piece == piece;
  }

  /** A safe path has a character that is not white space, does not start with a slash, and never climbs. */
  lemma SafeMeans(path: string)
    ensures PosixPath.IsSafe(path) <==>
              && (exists i :: 0 <= i < |path| && path[i] as int !in SPACES)
              && !(path != [] && path[0] == '/')
              && !exists before, after :: Climbs(path, before, after)
  {
    hide IsSpace, IsBreak, SPACES, BREAKS, PosixPath.Parts, Climbs;
    ClimbsIsPart(path);
    if ".." in PosixPath.Parts(path) {
      PartClimbs(path);
    }
    assert Strip(path) == [] <==> Blank(path) by {
      BlankStrips(path);
    }
  }

  lemma BlankStrips(s: string)
    ensures Strip(s) == [] <==> Blank(s)
  {
    hide IsSpace, IsBreak, SPACES, BREAKS, Strip, Blank;
    StripMeans(s, []);
    if Blank(s) {
      assert s == s + [] + [] && Blank([]) by { BlankIsSpace([]); }
      assert Surrounds(s, s, [], []);
    }
    if left, right :| Surrounds(s, left, [], right) {
      assert s == left + right;
      BlankIsSpace(left);
      BlankIsSpace(right);
      BlankIsSpace(s);
    }
  }
}
