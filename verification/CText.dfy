/**
 Text as the C library sees it: strings that end at a zero byte, files read by `fgets` in
 bounded pieces, and the shape the configuration files of the utilities share - comments,
 section headings that start with '%', and lines.  Characters stand for bytes.
 */
module CText {
  import opened Basics

  /** The C string stored in `s`: everything before the first zero byte. */
  function CStr(s: seq<char>): (r: string)
    ensures |r| <= |s| && r == s[..|r|] && (|r| < |s| ==> s[|r|] == NUL) && NUL !in r
  {
    if s == [] || s[0] == NUL then [] else [s[0]] + CStr(s[1..])
  }

  /** What is left of a line when it is cut at the first newline or zero byte. */
  function Cut(s: seq<char>): (r: string)
    ensures |r| <= |s| && r == s[..|r|] && '\n' !in r && NUL !in r
    ensures |r| < |s| ==> s[|r|] == '\n' || s[|r|] == NUL
  {
    if s == [] || s[0] == '\n' || s[0] == NUL then [] else [s[0]] + Cut(s[1..])
  }

  lemma {:induction false} CStrIs(s: seq<char>, k: nat)
    requires k < |s| && s[k] == NUL && NUL !in s[..k]
    ensures CStr(s) == s[..k]
  {
    if k > 0 {
      assert s[..k] == [s[0]] + s[1..][..k - 1];
      CStrIs(s[1..], k - 1);
    }
  }

  lemma {:induction false} CutIs(s: seq<char>, k: nat)
    requires k <= |s| && '\n' !in s[..k] && NUL !in s[..k] && (k < |s| ==> s[k] == '\n' || s[k] == NUL)
    ensures Cut(s) == s[..k]
  {
    if k > 0 {
      assert s[..k] == [s[0]] + s[1..][..k - 1];
      CutIs(s[1..], k - 1);
    }
  }

  // ----- fgets -----

  /** How many bytes `fgets` takes with room for `limit` of them: through the first newline. */
  function ChunkLen(limit: nat, s: seq<char>): (k: nat)
    ensures k <= limit && k <= |s|
    ensures 0 < limit && s != [] ==> 0 < k
    ensures '\n' !in s[..k] || (0 < k && s[k - 1] == '\n' && '\n' !in s[..k - 1])
    ensures '\n' !in s[..k] ==> k == limit || k == |s|
    decreases limit
  {
    if limit == 0 || s == [] then 0
    else if s[0] == '\n' then 1
    else
      var k := ChunkLen(limit - 1, s[1..]);
      assert s[..k + 1] == [s[0]] + s[1..][..k];
      assert k > 0 ==> s[..k] == [s[0]] + s[1..][..k - 1];
      k + 1
  }

  predicate Ignored(s: seq<char>) {
    s != [] && (s[0] == '#' || s[0] == '\n')
  }

  /** The lines a reader with room for `limit` bytes acts on. */
  function Lines(limit: nat, s: seq<char>): (r: seq<string>)
    requires limit > 0
    decreases |s|
  {
    if s == [] then []
    else
      var k := ChunkLen(limit, s);
      var rest := Lines(limit, s[k..]);
      if Ignored(s) then rest else [Cut(s[..k])] + rest
  }

  /** A line is never longer than a piece and holds no newline and no zero byte. */
  lemma {:induction false} LinesBounded(limit: nat, s: seq<char>, line: string)
    requires limit > 0 && line in Lines(limit, s)
    ensures |line| <= limit && '\n' !in line && NUL !in line
    decreases |s|
  {
    var k := ChunkLen(limit, s);
    if Ignored(s) || line != Cut(s[..k]) {
      LinesBounded(limit, s[k..], line);
    }
  }

  /** One piece at a time: nothing if it starts with '#' or is a bare newline, else the piece up to its newline. */
  lemma LinesByPiece(limit: nat, piece: seq<char>, rest: seq<char>)
    requires 0 < |piece| <= limit && '\n' !in piece[..|piece| - 1]
    requires |piece| == limit || rest == [] || piece[|piece| - 1] == '\n'
    ensures Lines(limit, piece + rest) ==
            if piece[0] == '#' || piece[0] == '\n' then Lines(limit, rest) else [Cut(piece)] + Lines(limit, rest)
  {
    var s := piece + rest;
    assert s[..|piece| - 1] == piece[..|piece| - 1];
    ChunkIs(limit, s, |piece|);
    assert s[..|piece|] == piece && s[|piece|..] == rest;
  }

  lemma {:induction false} ChunkIs(limit: nat, s: seq<char>, i: nat)
    requires 0 < i <= limit && i <= |s| && '\n' !in s[..i - 1]
    requires i == limit || i == |s| || s[i - 1] == '\n'
    ensures ChunkLen(limit, s) == i
    decreases i
  {
    if i > 1 {
      assert s[..i - 1] == [s[0]] + s[1..][..i - 2];
      ChunkIs(limit - 1, s[1..], i - 1);
    }
  }

  // ----- sections -----

  predicate Marked(line: string) {
    line != [] && line[0] == '%'
  }

  function After(ls: seq<string>, head: string): (r: seq<string>)
  {
    if ls == [] then [] else if ls[0] == head then ls[1..] else After(ls[1..], head)
  }

  function UpToMark(ls: seq<string>): (r: seq<string>)
    ensures |r| <= |ls| && r == ls[..|r|]
    ensures (forall line :: line in r ==> !Marked(line)) && (|r| < |ls| ==> Marked(ls[|r|]))
  {
    if ls == [] || Marked(ls[0]) then [] else [ls[0]] + UpToMark(ls[1..])
  }

  /** The lines between the heading and the next line that starts with '%'. */
  function Section(ls: seq<string>, head: string): (r: seq<string>)
  {
    UpToMark(After(ls, head))
  }

  ghost predicate IsSection(ls: seq<string>, head: string, i: nat, j: nat) {
    && i < j <= |ls| && ls[i] == head && head !in ls[..i]
    && (forall k :: i < k < j ==> ls[k] == [] || ls[k][0] != '%')
    && (j < |ls| ==> ls[j] != [] && ls[j][0] == '%')
  }

  /** The section is found by position: first heading, then first mark after it. */
  lemma {:induction false} SectionByPosition(ls: seq<string>, head: string)
    ensures head !in ls ==> Section(ls, head) == []
    ensures head in ls ==> exists i: nat, j: nat :: IsSection(ls, head, i, j) && Section(ls, head) == ls[i + 1..j]
  {
    if head in ls {
      var i := AfterByPosition(ls, head);
      var body := Section(ls, head);
      var j := i + 1 + |body|;
      forall k | i < k < j ensures !Marked(ls[k]) {
        assert body[k - i - 1] == ls[k];
      }
      assert IsSection(ls, head, i, j) && body == ls[i + 1..j];
    } else {
      NoHeading(ls, head);
    }
  }

  lemma {:induction false} AfterByPosition(ls: seq<string>, head: string) returns (i: nat)
    requires head in ls
    ensures i < |ls| && ls[i] == head && head !in ls[..i] && After(ls, head) == ls[i + 1..]
  {
    if ls[0] == head {
      i := 0;
    } else {
      var i' := AfterByPosition(ls[1..], head);
      i := i' + 1;
      assert ls[..i] == [ls[0]] + ls[1..][..i'];
    }
  }

  lemma {:induction false} NoHeading(ls: seq<string>, head: string)
    requires head !in ls
    ensures After(ls, head) == []
  {
    if ls != [] {
      NoHeading(ls[1..], head);
    }
  }

  // ----- long lines -----

  /** Bytes before the first newline. */
  function LineLen(s: seq<char>): (n: nat)
    ensures n <= |s| && '\n' !in s[..n] && (n < |s| ==> s[n] == '\n')
  {
    if s == [] || s[0] == '\n' then 0
    else
      var n := LineLen(s[1..]);
      assert s[..n + 1] == [s[0]] + s[1..][..n];
      n + 1
  }

  function NextStart(s: seq<char>): (n: nat)
    requires s != []
    ensures 0 < n <= |s|
  {
    if LineLen(s) < |s| then LineLen(s) + 1 else |s|
  }

  /** The same lines with no bound on their length. */
  function WholeLines(s: seq<char>): (r: seq<string>)
    decreases |s|
  {
    if s == [] then []
    else
      var rest := WholeLines(s[NextStart(s)..]);
      if Ignored(s) then rest else [Cut(s[..LineLen(s)])] + rest
  }

  /** Line by line: comments and empty lines are skipped, every other line is cut at a zero byte. */
  lemma WholeLinesByLine(line: seq<char>, rest: seq<char>)
    requires '\n' !in line
    ensures WholeLines(line + "\n" + rest) ==
            if line == [] || line[0] == '#' then WholeLines(rest) else [Cut(line)] + WholeLines(rest)
    ensures WholeLines(line) == if line == [] || line[0] == '#' then [] else [Cut(line)]
  {
    var s := line + "\n" + rest;
    LineIs(s, |line|);
    LineIs(line, |line|);
    assert s[..|line|] == line && s[|line| + 1..] == rest;
    assert line[..|line|] == line && line[|line|..] == [];
  }

  lemma {:induction false} LineIs(s: seq<char>, n: nat)
    requires n <= |s| && '\n' !in s[..n] && (n < |s| ==> s[n] == '\n')
    ensures LineLen(s) == n
  {
    if n > 0 {
      assert s[..n] == [s[0]] + s[1..][..n - 1];
      LineIs(s[1..], n - 1);
    }
  }

  predicate ShortLines(limit: nat, s: seq<char>)
    decreases |s|
  {
    s == [] || (LineLen(s) <= limit && ShortLines(limit, s[NextStart(s)..]))
  }

  /** Reading in pieces is reading by lines when no line is longer than a piece. */
  lemma {:induction false} PiecesAreLines(limit: nat, s: seq<char>)
    requires limit > 0 && ShortLines(limit, s)
    ensures Lines(limit, s) == WholeLines(s)
    decreases |s|
  {
    if s != [] {
      PiecesAreLines(limit, s[NextStart(s)..]);
      OnePiece(limit, s);
    }
  }

  /** A line that fits is one piece, or one piece and its newline, which is ignored. */
  lemma OnePiece(limit: nat, s: seq<char>)
    requires limit > 0 && s != [] && LineLen(s) <= limit
    ensures var rest := Lines(limit, s[NextStart(s)..]);
            Lines(limit, s) == if Ignored(s) then rest else [Cut(s[..LineLen(s)])] + rest
  {
    var n, next, k := LineLen(s), NextStart(s), ChunkLen(limit, s);
    ChunkOfLine(limit, s);
    SameCut(s, n, k);
    assert Lines(limit, s[k..]) == Lines(limit, s[next..]) by {
      if k != next {
        NewlinePiece(limit, s[k..]);
        assert s[k..][1..] == s[next..];
      }
    }
  }

  lemma NewlinePiece(limit: nat, s: seq<char>)
    requires limit > 0 && s != [] && s[0] == '\n'
    ensures Lines(limit, s) == Lines(limit, s[1..])
  {
  }

  lemma ChunkOfLine(limit: nat, s: seq<char>)
    requires limit > 0 && s != [] && LineLen(s) <= limit
    ensures var k := ChunkLen(limit, s);
            (k == LineLen(s) == limit < |s|) || k == NextStart(s)
  {
    var n, k := LineLen(s), ChunkLen(limit, s);
    if k <= n {
      assert forall i :: 0 <= i < k ==> s[..k][i] == s[..n][i];
    } else {
      assert s[n] in s[..k];
      assert forall i :: 0 <= i < k - 1 ==> s[i] in s[..k - 1];
    }
  }

  lemma SameCut(s: seq<char>, n: nat, k: nat)
    requires n <= k <= |s| && '\n' !in s[..n] && (k == n || s[n] == '\n')
    ensures Cut(s[..k]) == Cut(s[..n])
  {
    var r := Cut(s[..n]);
    assert r == s[..n][..|r|] == s[..k][..|r|];
    CutIs(s[..k], |r|);
  }
}
