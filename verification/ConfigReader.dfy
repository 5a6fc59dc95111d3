/**
 The readers of the configuration files: `check_chos` (once in the PAM module, once in the
 utility, with buffers that differ by one byte), `set_env` and `set_beh`.  Each works on a
 line buffer that it changes in place.
 */
module ConfigReader {
  import opened Basics
  import opened CText

  const SHELLHEAD: string := "%SHELLS"
  const ENVHEAD: string := "%ENV"
  const BEHHEAD: string := "%BEH"
  const DEFPATH: string := "PATH=/bin:/usr/bin:/usr/local/bin"

  /** fgets reads one byte less than it is told: 80 bytes in the PAM module, 79 in the utility. */
  const PAM_LIMIT: nat := 80
  const UTIL_LIMIT: nat := 79

  // ----- what a lookup means -----

  /** The line names `name` and gives it `path`: the name is everything before the first colon. */
  predicate Names(line: string, name: string, path: string) {
    line == name + ":" + path && ':' !in name
  }

  function Colon(line: string): (i: nat)
    ensures i <= |line| && ':' !in line[..i] && (i < |line| ==> line[i] == ':')
  {
    if line == [] || line[0] == ':' then 0
    else
      var i := Colon(line[1..]);
      assert line[..i + 1] == [line[0]] + line[1..][..i];
      i + 1
  }

  function PathOf(line: string, name: string): (r: Option<string>)
  {
    var i := Colon(line);
    if i < |line| && line[..i] == name then Some(line[i + 1..]) else None
  }

  lemma PathOfNames(line: string, name: string, path: string)
    ensures PathOf(line, name) == Some(path) <==> Names(line, name, path)
  {
    var i := Colon(line);
    if i < |line| {
      assert line == line[..i] + ":" + line[i + 1..];
    }
    if Names(line, name, path) {
      ColonAfter(name, path);
    }
  }

  lemma {:induction false} ColonAfter(name: string, path: string)
    requires ':' !in name
    ensures Colon(name + ":" + path) == |name|
    ensures (name + ":" + path)[..|name|] == name && (name + ":" + path)[|name| + 1..] == path
  {
    var line := name + ":" + path;
    if name != [] {
      assert line[1..] == name[1..] + ":" + path;
      ColonAfter(name[1..], path);
    }
  }

  /** The path of the first line that names `name`. */
  function FirstPath(ls: seq<string>, name: string): (r: Option<string>)
  {
    if ls == [] then None
    else if PathOf(ls[0], name).Some? then PathOf(ls[0], name)
    else FirstPath(ls[1..], name)
  }

  /** What check_chos looks up in a configuration file read in pieces of `limit` bytes. */
  function Lookup(limit: nat, file: seq<char>, name: string): (r: Option<string>)
    requires limit > 0
  {
    FirstPath(Section(Lines(limit, file), SHELLHEAD), name)
  }

  ghost predicate FirstNamed(ls: seq<string>, name: string, k: nat, path: string) {
    k < |ls| && Names(ls[k], name, path) && forall j, p :: 0 <= j < k ==> !Names(ls[j], name, p)
  }

  /** First match, by position; no answer exactly when no line names the name. */
  lemma {:induction false} FirstPathByPosition(ls: seq<string>, name: string)
    ensures FirstPath(ls, name).Some? ==> exists k: nat :: FirstNamed(ls, name, k, FirstPath(ls, name).value)
    ensures FirstPath(ls, name).None? ==> forall j, p :: 0 <= j < |ls| ==> !Names(ls[j], name, p)
  {
    if ls != [] {
      forall p ensures PathOf(ls[0], name) == Some(p) <==> Names(ls[0], name, p) {
        PathOfNames(ls[0], name, p);
      }
      if PathOf(ls[0], name).Some? {
        assert FirstNamed(ls, name, 0, PathOf(ls[0], name).value);
      } else {
        FirstPathByPosition(ls[1..], name);
        if FirstPath(ls, name).Some? {
          var k: nat :| FirstNamed(ls[1..], name, k, FirstPath(ls, name).value);
          assert forall j :: 1 <= j < |ls| ==> ls[j] == ls[1..][j - 1];
          assert FirstNamed(ls, name, k + 1, FirstPath(ls, name).value);
        }
      }
    }
  }

  /** A name that is found and its path came out of one piece together with their colon. */
  lemma {:induction false} LookupBound(limit: nat, file: seq<char>, name: string)
    requires limit > 0 && Lookup(limit, file, name).Some?
    ensures var path := Lookup(limit, file, name).value;
            |name| + 1 + |path| <= limit && '\n' !in path && NUL !in path
  {
    var ls := Section(Lines(limit, file), SHELLHEAD);
    FirstPathByPosition(ls, name);
    var path := Lookup(limit, file, name).value;
    var k: nat :| FirstNamed(ls, name, k, path);
    SectionLines(Lines(limit, file), SHELLHEAD, ls[k]);
    LinesBounded(limit, file, ls[k]);
    assert forall c :: c in path ==> c in ls[k];
  }

  lemma {:induction false} SectionLines(ls: seq<string>, head: string, line: string)
    requires line in Section(ls, head)
    ensures line in ls
  {
    if ls != [] && ls[0] != head {
      SectionLines(ls[1..], head, line);
    }
  }

  /**
   The two versions of check_chos agree on every file none of whose lines has more than 79
   bytes before its newline, although their buffers differ.
   */
  lemma VersionsAgree(file: seq<char>, name: string)
    requires ShortLines(UTIL_LIMIT, file)
    ensures Lookup(PAM_LIMIT, file, name) == Lookup(UTIL_LIMIT, file, name)
         == FirstPath(Section(WholeLines(file), SHELLHEAD), name)
  {
    ShorterStill(UTIL_LIMIT, PAM_LIMIT, file);
    PiecesAreLines(UTIL_LIMIT, file);
    PiecesAreLines(PAM_LIMIT, file);
  }

  lemma {:induction false} ShorterStill(low: nat, high: nat, s: seq<char>)
    requires low <= high && ShortLines(low, s)
    ensures ShortLines(high, s)
    decreases |s|
  {
    if s != [] {
      ShorterStill(low, high, s[NextStart(s)..]);
    }
  }

  // ----- reading a line into the buffer -----

  datatype Got = Eof | Skipped | Line(len: nat)

  /** fgets */
  method Fgets(buffer: array<char>, limit: nat, file: seq<char>, pos: nat) returns (got: bool, next: nat)
    requires 0 < limit < buffer.Length && pos <= |file|
    modifies buffer
    ensures got <==> pos < |file|
    ensures pos <= next <= |file|
    ensures got ==> next == pos + ChunkLen(limit, file[pos..]) && next - pos <= limit
    ensures got ==> buffer[..next - pos] == file[pos..next] && buffer[next - pos] == NUL
    ensures !got ==> next == pos && buffer[..] == old(buffer[..])
  {
    got, next := pos < |file|, pos;
    if !got {
      return;
    }
    ghost var whole := file[pos..];
    var i := 0;
    while i < limit && pos + i < |file| && (i == 0 || file[pos + i - 1] != '\n')
      invariant i <= limit && i <= |whole| && buffer[..i] == whole[..i]
      invariant i > 0 ==> '\n' !in whole[..i - 1]
    {
      assert i > 0 ==> whole[..i] == whole[..i - 1] + [file[pos + i - 1]];
      buffer[i] := file[pos + i];
      i := i + 1;
    }
    buffer[i] := NUL;
    next := pos + i;
    ChunkIs(limit, whole, i);
    assert file[pos..next] == whole[..i];
  }

  /** The head of every reading loop: fgets, skip comments and blank lines, strip the newline. */
  method NextLine(buffer: array<char>, limit: nat, file: seq<char>, pos: nat) returns (got: Got, next: nat)
    requires 0 < limit < buffer.Length && pos <= |file|
    modifies buffer
    ensures pos <= next <= |file|
    ensures got.Eof? ==> pos == |file| && Lines(limit, file[pos..]) == []
    ensures !got.Eof? ==> pos < next
    ensures got.Skipped? ==> Lines(limit, file[pos..]) == Lines(limit, file[next..])
    ensures got.Line? ==> got.len < buffer.Length && buffer[got.len] == NUL
    ensures got.Line? ==> NUL !in buffer[..got.len]
    ensures got.Line? ==> Lines(limit, file[pos..]) == [buffer[..got.len]] + Lines(limit, file[next..])
  {
    var more;
    more, next := Fgets(buffer, limit, file, pos);
    if !more {
      return Eof, next;
    }
    ghost var chunk := file[pos..next];
    LinesStep(limit, file, pos, next);
    assert buffer[0] == chunk[0];
    if buffer[0] == '#' || buffer[0] == '\n' {
      return Skipped, next;
    }
    var len := StripNewline(buffer, chunk);
    return Line(len), next;
  }

  /** One piece of the file is one line, or none if it is to be ignored. */
  lemma LinesStep(limit: nat, file: seq<char>, pos: nat, next: nat)
    requires 0 < limit && pos < |file| && next == pos + ChunkLen(limit, file[pos..])
    ensures pos < next <= |file| && file[pos..][0] == file[pos..next][0]
    ensures Lines(limit, file[pos..]) ==
            if Ignored(file[pos..next]) then Lines(limit, file[next..])
            else [Cut(file[pos..next])] + Lines(limit, file[next..])
  {
    var s := file[pos..];
    assert s[..next - pos] == file[pos..next] && s[next - pos..] == file[next..];
  }

  /** Walk to the newline or the end and put a zero there. */
  method StripNewline(buffer: array<char>, ghost chunk: seq<char>) returns (path: nat)
    requires |chunk| < buffer.Length && buffer[..|chunk|] == chunk && buffer[|chunk|] == NUL
    modifies buffer
    ensures path < buffer.Length && buffer[path] == NUL && buffer[..path] == Cut(chunk)
  {
    path := 0;
    while buffer[path] != NUL && buffer[path] != '\n'
      invariant path <= |chunk|
      invariant '\n' !in chunk[..path] && NUL !in chunk[..path]
      decreases |chunk| - path
    {
      assert chunk[path] == buffer[path];
      path := path + 1;
    }
    assert path < |chunk| ==> chunk[path] == buffer[path];
    CutIs(chunk, path);
    buffer[path] := NUL;
  }

  // ----- what the four reading loops share -----

  /** What is still to come of a section, once its heading has been seen or not. */
  function Rest(started: bool, ls: seq<string>, head: string): (r: seq<string>)
  {
    if started then UpToMark(ls) else Section(ls, head)
  }

  /** The same, counting the mark that ends the section if there is one. */
  function Counted(started: bool, ls: seq<string>, head: string): (n: nat)
    ensures n >= |Rest(started, ls, head)|
  {
    var after := if started then ls else After(ls, head);
    |UpToMark(after)| + (if |UpToMark(after)| < |after| then 1 else 0)
  }

  /** The count by position: the lines between the heading and the mark, and the mark. */
  lemma CountedByPosition(ls: seq<string>, head: string)
    ensures head !in ls ==> Counted(false, ls, head) == 0
    ensures head in ls ==>
              exists i: nat, j: nat :: IsSection(ls, head, i, j) && Counted(false, ls, head) == (if j < |ls| then j else j - 1) - i
  {
    if head in ls {
      var i := AfterByPosition(ls, head);
      var body := UpToMark(ls[i + 1..]);
      var j := i + 1 + |body|;
      forall k | i < k < j ensures !Marked(ls[k]) {
        assert body[k - i - 1] == ls[k];
      }
      assert IsSection(ls, head, i, j);
    } else {
      NoHeading(ls, head);
    }
  }

  lemma RestStep(line: string, ls: seq<string>, head: string)
    ensures Rest(true, [line] + ls, head) == if Marked(line) then [] else [line] + Rest(true, ls, head)
    ensures Counted(true, [line] + ls, head) == 1 + if Marked(line) then 0 else Counted(true, ls, head)
    ensures Rest(false, [line] + ls, head) == Rest(line == head, ls, head)
    ensures Counted(false, [line] + ls, head) == Counted(line == head, ls, head)
  {
    assert ([line] + ls)[1..] == ls;
  }

  datatype Item = Ended(marked: bool) | Passed | Inside(len: nat)

  /** One line: the end of the file or the section, a line to pass over, or one inside the section. */
  method NextItem(buffer: array<char>, limit: nat, file: seq<char>, pos: nat, start: bool, head: string)
    returns (item: Item, next: nat, started: bool)
    requires 0 < limit < buffer.Length && pos <= |file|
    modifies buffer
    ensures pos <= next <= |file| && (!item.Ended? ==> pos < next)
    ensures var ls, rest := Lines(limit, file[pos..]), Lines(limit, file[next..]);
            match item
            case Ended(marked) =>
              (marked ==> start) && Rest(start, ls, head) == [] && Counted(start, ls, head) == if marked then 1 else 0
            case Passed =>
              Rest(start, ls, head) == Rest(started, rest, head) && Counted(start, ls, head) == Counted(started, rest, head)
            case Inside(len) =>
              && start && started && len < buffer.Length && buffer[len] == NUL && NUL !in buffer[..len]
              && Rest(start, ls, head) == [buffer[..len]] + Rest(true, rest, head)
              && Counted(start, ls, head) == 1 + Counted(true, rest, head)
  {
    var got;
    started := start;
    got, next := NextLine(buffer, limit, file, pos);
    if got.Eof? {
      return Ended(false), next, start;
    }
    if got.Skipped? {
      return Passed, next, start;
    }
    RestStep(buffer[..got.len], Lines(limit, file[next..]), head);
    if start {
      if buffer[0] == '%' {
        assert buffer[..got.len][0] == '%';
        return Ended(true), next, start;
      }
      return Inside(got.len), next, start;
    }
    return Passed, next, buffer[..got.len] == head;
  }

  // ----- check_chos -----

  /** Split the line in the buffer at its first colon and compare the name. */
  method SplitLine(buffer: array<char>, len: nat, name: string) returns (path: Option<string>)
    requires len < buffer.Length && buffer[len] == NUL && NUL !in buffer[..len] && NUL !in name
    modifies buffer
    ensures path == PathOf(old(buffer[..len]), name)
  {
    ghost var line := buffer[..len];
    var i := 0;
    while buffer[i] != ':' && buffer[i] != NUL
      invariant i <= len && ':' !in line[..i]
      decreases len - i
    {
      assert line[i] == buffer[i];
      i := i + 1;
    }
    assert i < len ==> line[i] == buffer[i];
    ColonIs(line, i);
    if buffer[i] == NUL {
      return None;
    }
    buffer[i] := NUL;
    CStrIs(buffer[..], i);
    assert buffer[..][..i] == line[..i];
    if CStr(buffer[..]) == name {
      CStrIs(buffer[i + 1..], len - i - 1);
      assert buffer[i + 1..][..len - i - 1] == line[i + 1..];
      return Some(CStr(buffer[i + 1..]));
    }
    return None;
  }

  lemma {:induction false} ColonIs(line: string, i: nat)
    requires i <= |line| && ':' !in line[..i] && (i < |line| ==> line[i] == ':')
    ensures Colon(line) == i
  {
    if i > 0 {
      assert line[..i] == [line[0]] + line[1..][..i - 1];
      ColonIs(line[1..], i - 1);
    }
  }

  /** check_chos, in the PAM module with `limit` 80 and in the utility with 79. */
  method CheckChos(limit: nat, file: seq<char>, name: string) returns (retpath: Option<string>)
    requires limit > 0 && NUL !in name
    ensures retpath == Lookup(limit, file, name)
  {
    var buffer := new char[limit + 1];
    var start, pos := false, 0;
    assert file[0..] == file;
    while true
      invariant pos <= |file|
      invariant FirstPath(Rest(start, Lines(limit, file[pos..]), SHELLHEAD), name) == Lookup(limit, file, name)
      decreases |file| - pos
    {
      var item, next, started := NextItem(buffer, limit, file, pos, start, SHELLHEAD);
      if item.Ended? {
        return None;
      }
      pos, start := next, started;
      if item.Inside? {
        FirstPathStep(buffer[..item.len], Rest(true, Lines(limit, file[next..]), SHELLHEAD), name);
        var path := SplitLine(buffer, item.len, name);
        if path.Some? {
          return path;
        }
      }
    }
  }

  lemma FirstPathStep(line: string, ls: seq<string>, name: string)
    ensures FirstPath([line] + ls, name) ==
            if PathOf(line, name).Some? then PathOf(line, name) else FirstPath(ls, name)
  {
    assert ([line] + ls)[1..] == ls;
  }

  // ----- set_beh -----

  /** set_beh: is BASHLOGIN a line of the %BEH section. */
  method SetBeh(file: seq<char>) returns (bashLogin: bool)
    ensures bashLogin <==> "BASHLOGIN" in Section(Lines(UTIL_LIMIT, file), BEHHEAD)
  {
    var buffer := new char[UTIL_LIMIT + 1];
    var start, pos := false, 0;
    bashLogin := false;
    assert file[0..] == file;
    ghost var all := Section(Lines(UTIL_LIMIT, file), BEHHEAD);
    while true
      invariant pos <= |file|
      invariant (bashLogin || "BASHLOGIN" in Rest(start, Lines(UTIL_LIMIT, file[pos..]), BEHHEAD)) <==> "BASHLOGIN" in all
      decreases |file| - pos
    {
      var item, next, started := NextItem(buffer, UTIL_LIMIT, file, pos, start, BEHHEAD);
      if item.Ended? {
        return;
      }
      pos, start := next, started;
      if item.Inside? && buffer[..item.len] == "BASHLOGIN" {
        bashLogin := true;
      }
    }
  }

  // ----- set_env -----

  /** What one name of the %ENV section contributes to the new environment. */
  function Entry(name: string, environ: map<string, string>): (r: seq<string>)
    ensures |r| <= 1
  {
    if name == "PATH" then [DEFPATH]
    else if name in environ then [name + "=" + environ[name]]
    else []
  }

  function Entries(names: seq<string>, environ: map<string, string>): (r: seq<string>)
    ensures |r| <= |names|
  {
    if names == [] then [] else Entry(names[0], environ) + Entries(names[1..], environ)
  }

  /** Entries come in file order, and they are exactly the entries of the names listed. */
  lemma {:induction false} EntriesInOrder(before: seq<string>, after: seq<string>, environ: map<string, string>)
    ensures Entries(before + after, environ) == Entries(before, environ) + Entries(after, environ)
  {
    if before == [] {
      assert before + after == after;
    } else {
      assert (before + after)[1..] == before[1..] + after;
      EntriesInOrder(before[1..], after, environ);
    }
  }

  /** The default path for PATH, whatever the caller has; every other name with the caller's value, if it is set. */
  lemma {:induction false} EntriesExactly(names: seq<string>, environ: map<string, string>, e: string)
    ensures e in Entries(names, environ) <==>
            || (e == "PATH=/bin:/usr/bin:/usr/local/bin" && "PATH" in names)
            || exists n :: n in names && n != "PATH" && n in environ && e == n + "=" + environ[n]
  {
    if names != [] {
      EntriesExactly(names[1..], environ, e);
      assert forall n :: n in names <==> n == names[0] || n in names[1..];
    }
  }

  lemma AllEntries(names: seq<string>, environ: map<string, string>)
    ensures forall e :: e in Entries(names, environ) <==>
              || (e == "PATH=/bin:/usr/bin:/usr/local/bin" && "PATH" in names)
              || exists n :: n in names && n != "PATH" && n in environ && e == n + "=" + environ[n]
  {
    forall e ensures e in Entries(names, environ) <==>
              || (e == "PATH=/bin:/usr/bin:/usr/local/bin" && "PATH" in names)
              || exists n :: n in names && n != "PATH" && n in environ && e == n + "=" + environ[n] {
      EntriesExactly(names, environ, e);
    }
  }

  /** One name stands for one entry or none, so entries correspond to names one by one. */
  lemma EntryCount(name: string, environ: map<string, string>)
    ensures |Entries([name], environ)| == if name == "PATH" || name in environ then 1 else 0
  {
    assert Entries([name], environ) == Entry(name, environ) + Entries([], environ);
  }

  /** The first pass: how many entries the array needs, with one more for the terminator. */
  method CountLines(file: seq<char>) returns (count: nat)
    ensures count == 1 + Counted(false, Lines(UTIL_LIMIT, file), ENVHEAD)
  {
    var buffer := new char[UTIL_LIMIT + 1];
    var start, pos := false, 0;
    count := 1;
    assert file[0..] == file;
    while true
      invariant pos <= |file|
      invariant count + Counted(start, Lines(UTIL_LIMIT, file[pos..]), ENVHEAD) ==
                1 + Counted(false, Lines(UTIL_LIMIT, file), ENVHEAD)
      decreases |file| - pos
    {
      var item, next, started := NextItem(buffer, UTIL_LIMIT, file, pos, start, ENVHEAD);
      if item.Inside? || (item.Ended? && item.marked) {
        count := count + 1;
      }
      if item.Ended? {
        return;
      }
      pos, start := next, started;
    }
  }

  /** The first entries of the array are `list`. */
  ghost predicate Holds(env: seq<Option<string>>, list: seq<string>) {
    |list| <= |env| && forall i :: 0 <= i < |list| ==> env[i] == Some(list[i])
  }

  /** What has been stored so far and the names still to come make up `want`. */
  ghost predicate Filling(env: seq<Option<string>>, setc: nat, want: seq<string>, todo: seq<string>,
                          environ: map<string, string>)
  {
    && setc + |todo| < |env| && setc <= |want|
    && Holds(env, want[..setc]) && want[setc..] == Entries(todo, environ)
  }

  lemma FillStep(env: seq<Option<string>>, env': seq<Option<string>>, setc: nat, want: seq<string>,
                 name: string, todo: seq<string>, environ: map<string, string>)
    requires Filling(env, setc, want, [name] + todo, environ) && |env'| == |env|
    requires env' == if Entry(name, environ) == [] then env else env[setc := Some(Entry(name, environ)[0])]
    ensures Filling(env', setc + |Entry(name, environ)|, want, todo, environ)
  {
    assert ([name] + todo)[1..] == todo;
    var entry, rest := Entry(name, environ), Entries(todo, environ);
    assert want[setc..] == entry + rest;
    if entry == [] {
      assert entry + rest == rest;
    } else {
      assert entry == [entry[0]];
      OneMore(want, setc, entry[0], rest);
      HoldsMore(env, want[..setc], entry[0]);
    }
  }

  lemma OneMore<T>(s: seq<T>, k: nat, x: T, rest: seq<T>)
    requires k <= |s| && s[k..] == [x] + rest
    ensures k < |s| && s[..k + 1] == s[..k] + [x] && s[k + 1..] == rest
  {
    assert s[k..][0] == s[k];
    assert s[k + 1..] == s[k..][1..];
  }

  lemma HoldsMore(env: seq<Option<string>>, list: seq<string>, x: string)
    requires Holds(env, list) && |list| < |env|
    ensures Holds(env[|list| := Some(x)], list + [x])
  {
  }

  /** Store the entry of one name, if it has one. */
  method StoreEntry(env: array<Option<string>>, setc: nat, count: nat, name: string, environ: map<string, string>,
                    ghost want: seq<string>, ghost todo: seq<string>) returns (next: nat)
    requires env.Length <= count && Filling(env[..], setc, want, [name] + todo, environ)
    modifies env
    ensures Filling(env[..], next, want, todo, environ)
  {
    FillStep(env[..], if Entry(name, environ) == [] then env[..] else env[..][setc := Some(Entry(name, environ)[0])],
             setc, want, name, todo, environ);
    next := setc;
    if name == "PATH" {
      env[setc] := Some(DEFPATH);
      next := setc + 1;
    } else if name in environ && setc < count {
      env[setc] := Some(name + "=" + environ[name]);
      next := setc + 1;
    }
  }

  /** The second pass.  Its own guard compares with a count that keeps growing. */
  method FillEnv(env: array<Option<string>>, sized: nat, file: seq<char>, environ: map<string, string>)
    returns (setc: nat, count: nat)
    requires env.Length == sized == 1 + Counted(false, Lines(UTIL_LIMIT, file), ENVHEAD)
    modifies env
    ensures var want := Entries(Section(Lines(UTIL_LIMIT, file), ENVHEAD), environ);
            setc == |want| < env.Length && Holds(env[..], want)
    ensures count >= sized
  {
    var buffer := new char[UTIL_LIMIT + 1];
    var start, pos := false, 0;
    setc, count := 0, sized;
    assert file[0..] == file;
    ghost var todo := Rest(false, Lines(UTIL_LIMIT, file), ENVHEAD);
    ghost var want := Entries(todo, environ);
    while true
      invariant pos <= |file| && count >= sized && todo == Rest(start, Lines(UTIL_LIMIT, file[pos..]), ENVHEAD)
      invariant Filling(env[..], setc, want, todo, environ)
      decreases |file| - pos
    {
      ghost var stored := env[..];
      var item, next, started := NextItem(buffer, UTIL_LIMIT, file, pos, start, ENVHEAD);
      assert env[..] == stored;
      if item.Inside? || (item.Ended? && item.marked) {
        count := count + 1;
      }
      if item.Ended? {
        assert want[..setc] == want;
        return;
      }
      pos, start := next, started;
      if item.Inside? {
        todo := todo[1..];
        setc := StoreEntry(env, setc, count, buffer[..item.len], environ, want, todo);
      }
    }
  }

  /**
   set_env: the entries of the %ENV section in file order and a terminator.  Every store is
   inside the array the first pass asked for, and there is always room for the terminator.
   */
  method SetEnv(file: seq<char>, environ: map<string, string>) returns (env: array<Option<string>>, setc: nat, ok: bool)
    ensures var want := Entries(Section(Lines(UTIL_LIMIT, file), ENVHEAD), environ);
            ok && setc == |want| < env.Length && env[setc] == None && Holds(env[..], want)
    ensures var names := Section(Lines(UTIL_LIMIT, file), ENVHEAD);
            forall e :: e in Entries(names, environ) <==>
              || (e == "PATH=/bin:/usr/bin:/usr/local/bin" && "PATH" in names)
              || exists n :: n in names && n != "PATH" && n in environ && e == n + "=" + environ[n]
  {
    AllEntries(Section(Lines(UTIL_LIMIT, file), ENVHEAD), environ);
    var count := CountLines(file);
    env := new Option<string>[count](_ => None);
    setc, count := FillEnv(env, count, file, environ);
    ok := setc < count;
    if ok {
      env[setc] := None;
    }
  }
}
