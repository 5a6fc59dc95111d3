/**
 The pipe between the unprivileged child and the session: the child writes the path and the
 name, each with a newline; the session reads two lines of at most 79 bytes and sanitises
 them again.
 */
module Pipe {
  import opened Basics
  import opened CText
  import opened ConfigReader
  import opened Pam

  /** read_line_from_file gives fgets MAXLINE bytes of room, one of them for the zero. */
  const READ_LIMIT: nat := 79

  function FirstChunk(pipe: seq<char>): (r: seq<char>)
  {
    pipe[..ChunkLen(READ_LIMIT, pipe)]
  }

  function AfterFirst(pipe: seq<char>): (r: seq<char>)
  {
    pipe[ChunkLen(READ_LIMIT, pipe)..]
  }

  /** What the session ends up with: path and name, or nothing if a line is missing. */
  function Received(pipe: seq<char>): (r: Option<(string, string)>)
  {
    if pipe == [] || AfterFirst(pipe) == [] then None
    else Some((Sanitized(FirstChunk(pipe), true), Sanitized(FirstChunk(AfterFirst(pipe)), false)))
  }

  /** retrieve_from_child */
  method RetrieveFromChild(envPath: array<char>, osenv: array<char>, pipe: seq<char>) returns (ret: int)
    requires envPath.Length == osenv.Length == MAXLINE + 1 && envPath != osenv
    modifies envPath, osenv
    ensures ret == 1 || ret == -1
    ensures ret == 1 <==> Received(pipe).Some?
    ensures ret == 1 ==> CStr(envPath[..]) == CStr(FirstChunk(pipe)) && CStr(osenv[..]) == CStr(FirstChunk(AfterFirst(pipe)))
  {
    var dest := [envPath, osenv];
    var pos := 0;
    assert pipe[0..] == pipe;
    var got, next := Fgets(dest[0], READ_LIMIT, pipe, 0);
    if !got {
      return -1;
    }
    BufferText(envPath[..], FirstChunk(pipe));
    var more, end := Fgets(dest[1], READ_LIMIT, pipe, next);
    if !more {
      return -1;
    }
    assert pipe[next..end] == FirstChunk(AfterFirst(pipe));
    BufferText(osenv[..], FirstChunk(AfterFirst(pipe)));
    return 1;
  }

  /** A buffer that holds a chunk and a zero reads as the chunk does. */
  lemma BufferText(buffer: seq<char>, chunk: seq<char>)
    requires |chunk| < |buffer| && buffer[..|chunk|] == chunk && buffer[|chunk|] == NUL
    ensures CStr(buffer) == CStr(chunk)
  {
    assert buffer == chunk + buffer[|chunk|..];
    CStrAppend(chunk, buffer[|chunk|..]);
  }

  /** What the session does with the two buffers: sanitise all of each, then use them as strings. */
  method OpenSession(pipe: seq<char>) returns (r: Option<(string, string)>)
    ensures r == Received(pipe)
  {
    var envPath, osenv := new char[MAXLINE + 1], new char[MAXLINE + 1];
    var ret := RetrieveFromChild(envPath, osenv, pipe);
    if ret != 1 {
      return None;
    }
    SanitizedText(envPath[..], FirstChunk(pipe), true);
    SanitizedText(osenv[..], FirstChunk(AfterFirst(pipe)), false);
    assert envPath[..MAXLINE + 1] == envPath[..] && osenv[..MAXLINE + 1] == osenv[..];
    var _ := SanitizeStr(envPath, MAXLINE + 1, true);
    var _ := SanitizeStr(osenv, MAXLINE + 1, false);
    assert envPath[..MAXLINE + 1] == envPath[..] && osenv[..MAXLINE + 1] == osenv[..];
    return Some((CStr(envPath[..]), CStr(osenv[..])));
  }

  lemma SanitizedText(buffer: seq<char>, chunk: seq<char>, isPath: bool)
    requires CStr(buffer) == CStr(chunk)
    ensures CStr(Scrub(buffer, isPath)) == Sanitized(chunk, isPath)
  {
    SanitizedBuffer(buffer, isPath);
    CutOfCStr(buffer);
    CutOfCStr(chunk);
  }

  lemma {:induction false} CutOfCStr(s: seq<char>)
    ensures Cut(CStr(s)) == Cut(s)
  {
    if s != [] && s[0] != NUL {
      CutOfCStr(s[1..]);
    }
  }

  /** A piece as fgets hands it over when `rest` follows. */
  ghost predicate Piece(piece: seq<char>, rest: seq<char>) {
    && 0 < |piece| <= 79 && '\n' !in piece[..|piece| - 1]
    && (|piece| == 79 || rest == [] || piece[|piece| - 1] == '\n')
  }

  lemma PieceIs(piece: seq<char>, rest: seq<char>)
    requires Piece(piece, rest)
    ensures FirstChunk(piece + rest) == piece && AfterFirst(piece + rest) == rest
  {
    var s := piece + rest;
    assert s[..|piece| - 1] == piece[..|piece| - 1];
    ChunkIs(READ_LIMIT, s, |piece|);
  }

  /** The session gets something if and only if there is a second piece: path first, then name. */
  lemma ReceivedByPiece(first: seq<char>, second: seq<char>, rest: seq<char>)
    requires Piece(first, second + rest)
    ensures second + rest == [] ==> Received(first) == None
    ensures Piece(second, rest) ==>
              Received(first + (second + rest)) == Some((Sanitized(first, true), Sanitized(second, false)))
    ensures Received([]) == None
  {
    PieceIs(first, second + rest);
    if second + rest == [] {
      assert first + (second + rest) == first;
    }
    if Piece(second, rest) {
      PieceIs(second, rest);
    }
  }

  // ----- round trip -----

  ghost predicate OneLine(s: string) {
    '\n' !in s && NUL !in s
  }

  /** Reading back a line that was written with its newline. */
  lemma ChunkOfMessage(line: string, rest: seq<char>)
    requires OneLine(line)
    ensures var pipe := line + "\n" + rest;
            if |line| < READ_LIMIT then FirstChunk(pipe) == line + "\n" && AfterFirst(pipe) == rest
            else FirstChunk(pipe) == line[..READ_LIMIT] && AfterFirst(pipe) == line[READ_LIMIT..] + "\n" + rest
  {
    var pipe := line + "\n" + rest;
    if |line| < READ_LIMIT {
      assert pipe[..|line|] == line;
      ChunkIs(READ_LIMIT, pipe, |line| + 1);
      assert pipe[..|line| + 1] == line + "\n";
    } else {
      assert pipe[..READ_LIMIT - 1] == line[..READ_LIMIT - 1];
      ChunkIs(READ_LIMIT, pipe, READ_LIMIT);
      assert pipe[..READ_LIMIT] == line[..READ_LIMIT];
    }
  }

  lemma CutOfLine(line: string, k: nat)
    requires OneLine(line) && k <= |line|
    ensures Cut(line + "\n") == line && Cut(line[..k]) == line[..k]
  {
    assert (line + "\n")[..|line|] == line;
    CutIs(line + "\n", |line|);
    assert line[..k][..k] == line[..k];
    CutIs(line[..k], k);
  }

  ghost predicate IsName(name: string) {
    NUL !in name && forall c :: c in name ==> IsValidChar(c, false)
  }

  lemma PathArrives(path: string, rest: seq<char>)
    requires OneLine(path)
    ensures Sanitized(FirstChunk(path + "\n" + rest), true) == Scrub(path, true) <==> |path| <= READ_LIMIT
  {
    ChunkOfMessage(path, rest);
    if |path| < READ_LIMIT {
      CutOfLine(path, 0);
    } else {
      CutOfLine(path, READ_LIMIT);
      assert |path| == READ_LIMIT ==> path[..READ_LIMIT] == path;
    }
  }

  lemma NameArrives(name: string)
    requires IsName(name)
    ensures Sanitized(FirstChunk(name + "\n"), false) == name <==> |name| <= READ_LIMIT
  {
    NameIsClean(name);
    assert name + "\n" == name + "\n" + [];
    ChunkOfMessage(name, []);
    if |name| < READ_LIMIT {
      CutOfLine(name, 0);
    } else {
      CutOfLine(name, READ_LIMIT);
      assert |name| == READ_LIMIT ==> name[..READ_LIMIT] == name;
    }
  }

  /**
   Round trip over the pipe.  The session recovers the name exactly and the path up to replaced
   characters if and only if the path with its newline and the name without fit the reader's
   79 bytes - or the name is empty and the newline of a 79-byte path stands for it.
   */
  lemma PipeRoundTripIff(path: string, name: string)
    requires OneLine(path) && IsName(name)
    ensures Received(Message(path, name)) == Some((Scrub(path, true), name))
       <==> (|path| < READ_LIMIT && |name| <= READ_LIMIT) || (|path| == READ_LIMIT && name == [])
  {
    var pipe, rest := Message(path, name), name + "\n";
    assert pipe == path + "\n" + rest;
    ChunkOfMessage(path, rest);
    PathArrives(path, rest);
    NameArrives(name);
    if |path| == READ_LIMIT {
      NewlineOnly(path, rest);
    }
  }

  /** When the newline of the path is left over, it is read as an empty name. */
  lemma NewlineOnly(path: string, rest: seq<char>)
    requires OneLine(path) && |path| == READ_LIMIT
    ensures Sanitized(FirstChunk(AfterFirst(path + "\n" + rest)), false) == []
  {
    ChunkOfMessage(path, rest);
    var left := path[READ_LIMIT..] + "\n" + rest;
    assert left[0] == '\n' && ChunkLen(READ_LIMIT, left) == 1;
    assert FirstChunk(left) == left[..1] == "\n";
    assert Cut("\n") == "";
  }

  /** A recognised name always arrives, with its path: both came out of one line of 80 bytes. */
  lemma RecognisedArrives(conf: Option<seq<char>>, name: string)
    requires IsName(name) && LookupIn(conf, name).Some?
    ensures var path := LookupIn(conf, name).value;
            Received(Message(path, name)) == Some((Scrub(path, true), name))
  {
    LookupBound(PAM_LIMIT, conf.value, name);
    PipeRoundTripIff(LookupIn(conf, name).value, name);
  }

  /** A name that is not recognised and is passed on as its own path arrives iff it has at most 78 bytes. */
  lemma NameAsPathIff(name: string)
    requires IsName(name)
    ensures Received(Message(name, name)) == Some((name, name)) <==> |name| < READ_LIMIT
  {
    NameIsClean(name);
    PipeRoundTripIff(name, name);
    NameIsPath(name);
  }

  lemma NameIsPath(name: string)
    requires IsName(name)
    ensures Scrub(name, true) == name
  {
    NameIsClean(name);
    forall i | 0 <= i < |name| ensures ScrubChar(name[i], true) == name[i] {
      assert name[i] in name;
    }
  }

  /** A name replaced by the default entry's path arrives iff it has at most 79 bytes. */
  lemma DefaultPathIff(conf: Option<seq<char>>, name: string)
    requires IsName(name) && LookupIn(conf, DEFAULT_ENV_NAME).Some?
    ensures var path := LookupIn(conf, DEFAULT_ENV_NAME).value;
            Received(Message(path, name)) == Some((Scrub(path, true), name)) <==> |name| <= READ_LIMIT
  {
    LookupBound(PAM_LIMIT, conf.value, DEFAULT_ENV_NAME);
    PipeRoundTripIff(LookupIn(conf, DEFAULT_ENV_NAME).value, name);
  }

  /** From request to session: whatever was asked for, a recognised choice is what the session gets. */
  lemma ChoiceArrives(env: Option<string>, file: UserFile, conf: Option<seq<char>>, failToDefault: bool)
    requires file.Opened? ==> |file.bytes| <= MAXLINE
    requires LookupIn(conf, ChosenName(env, file)).Some?
    ensures var name := ChosenName(env, file);
            var path := ChosenPath(conf, name, failToDefault);
            && path == LookupIn(conf, name)
            && Received(Message(path.value, name)) == Some((Scrub(path.value, true), name))
  {
    ChosenNameIsClean(env, file);
    RecognisedArrives(conf, ChosenName(env, file));
  }
}
