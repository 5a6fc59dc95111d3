/**
 One byte too many: with a line of 80 bytes the two versions of `check_chos` part ways, so the
 bound in `VersionsAgree` cannot be raised.
 */
module LongLines {
  import opened Basics
  import opened CText
  import opened ConfigReader

  function Fill(n: nat): (r: string)
    ensures |r| == n && '\n' !in r && NUL !in r && ':' !in r
  {
    seq(n, _ => 'x')
  }

  /** A heading and the entry "a:xx...x" with a path of `n` bytes. */
  function LongFile(n: nat): string
  {
    SHELLHEAD + "\n" + ("a:" + Fill(n) + "\n")
  }

  /** A piece that starts the file becomes its first line. */
  lemma FirstPiece(limit: nat, piece: seq<char>, rest: seq<char>)
    requires 0 < |piece| <= limit && piece[0] != '#' && piece[0] != '\n'
    requires '\n' !in piece[..|piece| - 1] && (|piece| == limit || piece[|piece| - 1] == '\n')
    ensures Lines(limit, piece + rest) == [Cut(piece)] + Lines(limit, rest)
  {
    var s := piece + rest;
    assert s[..|piece| - 1] == piece[..|piece| - 1] && s[|piece| - 1] == piece[|piece| - 1];
    ChunkIs(limit, s, |piece|);
    assert s[..|piece|] == piece && s[|piece|..] == rest;
  }

  lemma CutHeading()
    ensures Cut(SHELLHEAD + "\n") == SHELLHEAD
  {
    CutIs(SHELLHEAD + "\n", |SHELLHEAD|);
  }

  lemma EntryAfterHeading(head: string, line: string, ls: seq<string>, name: string, path: string)
    requires Names(line, name, path) && !Marked(line)
    ensures FirstPath(Section([head] + ([line] + ls), head), name) == Some(path)
  {
    RestStep(head, [line] + ls, head);
    RestStep(line, ls, head);
    FirstPathStep(line, UpToMark(ls), name);
    PathOfNames(line, name, path);
  }

  lemma OneEntry(limit: nat, file: seq<char>, head: seq<char>, body: seq<char>, rest: seq<char>, name: string, path: string)
    requires file == head + (body + rest) && Cut(head) == SHELLHEAD && Names(Cut(body), name, path)
    requires 0 < |head| <= limit && head[0] == '%' && '\n' !in head[..|head| - 1] && head[|head| - 1] == '\n'
    requires 0 < |body| == limit && body[0] == 'a' && '\n' !in body[..limit - 1] && !Marked(Cut(body))
    ensures Lookup(limit, file, name) == Some(path)
  {
    FirstPiece(limit, head, body + rest);
    FirstPiece(limit, body, rest);
    EntryAfterHeading(SHELLHEAD, Cut(body), Lines(limit, rest), name, path);
  }

  /** The entry of a path of `n` bytes, whole in one piece. */
  lemma LongEntry(n: nat)
    ensures var body := "a:" + Fill(n);
            && |body| == n + 2 && Cut(body) == body && Names(body, "a", Fill(n)) && !Marked(body)
            && body[0] == 'a' && '\n' !in body[..n + 1]
  {
    var body := "a:" + Fill(n);
    CutIs(body, n + 2);
    assert body[..n + 2] == body;
    assert body == "a" + ":" + Fill(n);
  }

  lemma FillOneMore(n: nat)
    ensures Fill(n + 1) == Fill(n) + "x" && Fill(n + 1) != Fill(n)
  {
    assert |Fill(n + 1)| != |Fill(n)|;
  }

  /** Readers whose limits differ by one disagree on an entry that just fits the larger. */
  lemma LimitsPartWays(n: nat)
    requires n >= 7
    ensures Lookup(n + 2, LongFile(n), "a") == Some(Fill(n))
    ensures Lookup(n + 1, LongFile(n), "a") == Some(Fill(n - 1))
  {
    Heading();
    Splits(n);
    LongEntry(n);
    LongEntry(n - 1);
    OneEntry(n + 2, LongFile(n), SHELLHEAD + "\n", "a:" + Fill(n), "\n", "a", Fill(n));
    OneEntry(n + 1, LongFile(n), SHELLHEAD + "\n", "a:" + Fill(n - 1), "x\n", "a", Fill(n - 1));
  }

  lemma Heading()
    ensures var head := SHELLHEAD + "\n";
            && Cut(head) == SHELLHEAD && |head| == 8 && head[0] == '%'
            && '\n' !in head[..|head| - 1] && head[|head| - 1] == '\n'
  {
    CutHeading();
    assert (SHELLHEAD + "\n")[..7] == SHELLHEAD;
  }

  /** The PAM module finds all 78 bytes of the path, the utility only 77. */
  lemma VersionsPartWays()
    ensures Lookup(PAM_LIMIT, LongFile(78), "a") == Some(Fill(78))
    ensures Lookup(UTIL_LIMIT, LongFile(78), "a") == Some(Fill(77))
    ensures Fill(78) != Fill(77)
  {
    FillOneMore(77);
    LimitsPartWays(78);
  }

  lemma Splits(n: nat)
    requires n > 0
    ensures LongFile(n) == SHELLHEAD + "\n" + (("a:" + Fill(n)) + "\n")
    ensures LongFile(n) == SHELLHEAD + "\n" + (("a:" + Fill(n - 1)) + "x\n")
  {
    FillOneMore(n - 1);
    assert "a:" + Fill(n) + "\n" == "a:" + Fill(n - 1) + "x\n";
  }
}
