/**
 The PAM module's choice of an environment: module arguments, the user's file, $CHOS, the
 system configuration and the defaults, and the sanitising of what comes from outside.
 */
module Pam {
  import opened Basics
  import opened CText
  import opened ConfigReader

  const MAXLINE: nat := 80
  const MAX_LEN: nat := 256
  const DEFAULT_ENV_NAME: string := "default"
  const USER_CONF_FILE_DEFAULT: string := ".chos"

  // ----- sanitising -----

  /** is_valid_char; `char` is signed, so bytes above 127 are below '/'. */
  predicate IsValidChar(c: char, isPath: bool) {
    || c == NUL || c == '-' || c == '.'
    || '0' <= c <= '9'
    || ('/' <= c <= 127 as char && isPath)
    || 'a' <= c <= 'z' || c == '_' || 'A' <= c <= 'Z'
  }

  /** The documented alphabet of names. */
  predicate NameByte(c: char) {
    '0' <= c <= '9' || 'a' <= c <= 'z' || 'A' <= c <= 'Z' || c == '-' || c == '.' || c == '_'
  }

  /** What the code lets through in a path: '-', '.' and every byte from '/' to 127. */
  predicate PathByte(c: char) {
    c == '-' || '.' <= c <= 127 as char
  }

  function ScrubChar(c: char, isPath: bool): (r: char)
    ensures IsValidChar(r, isPath) && (r == NUL <==> c == '\n' || c == NUL)
  {
    var d := if c == '\n' then NUL else c;
    if IsValidChar(d, isPath) then d else '_'
  }

  /** Names keep exactly the documented alphabet, paths exactly what the comparison lets through. */
  lemma ScrubCharIs(c: char)
    ensures IsValidChar(c, false) <==> c == NUL || NameByte(c)
    ensures IsValidChar(c, true) <==> c == NUL || PathByte(c)
    ensures ScrubChar(c, false) == if c == '\n' || c == NUL then NUL else if NameByte(c) then c else '_'
    ensures ScrubChar(c, true) == if c == '\n' || c == NUL then NUL else if PathByte(c) then c else '_'
  {
  }

  function Scrub(s: seq<char>, isPath: bool): (r: seq<char>)
    ensures |r| == |s| && forall i :: 0 <= i < |s| ==> r[i] == ScrubChar(s[i], isPath)
  {
    seq(|s|, i requires 0 <= i < |s| => ScrubChar(s[i], isPath))
  }

  /** What a sanitised string reads as: cut at the first newline, odd characters replaced. */
  function Sanitized(s: seq<char>, isPath: bool): (r: string)
    ensures |r| <= |s| && NUL !in r && forall c :: c in r ==> IsValidChar(c, isPath)
  {
    Scrub(Cut(s), isPath)
  }

  lemma SanitizedBuffer(buffer: seq<char>, isPath: bool)
    ensures CStr(Scrub(buffer, isPath)) == Sanitized(buffer, isPath)
  {
    var k := |Cut(buffer)|;
    var scrubbed := Scrub(buffer, isPath);
    assert scrubbed[..k] == Sanitized(buffer, isPath);
    if k < |buffer| {
      CStrIs(scrubbed, k);
    } else {
      assert scrubbed[..k] == scrubbed;
    }
  }

  /** `name` is `text` up to its first newline or zero byte, with '_' for everything no name may have. */
  ghost predicate NameFrom(name: string, text: seq<char>) {
    && |name| <= |text| && '\n' !in text[..|name|] && NUL !in text[..|name|]
    && (|name| < |text| ==> text[|name|] == '\n' || text[|name|] == NUL)
    && forall i :: 0 <= i < |name| ==> name[i] == if NameByte(text[i]) then text[i] else '_'
  }

  lemma SanitizedIs(text: seq<char>)
    ensures NameFrom(Sanitized(text, false), text)
  {
    var name := Sanitized(text, false);
    forall i | 0 <= i < |name| ensures name[i] == if NameByte(text[i]) then text[i] else '_' {
      assert Cut(text)[i] == text[i];
      ScrubCharIs(text[i]);
    }
  }

  /** There is only one such name. */
  lemma NameFromUnique(name: string, name': string, text: seq<char>)
    requires NameFrom(name, text) && NameFrom(name', text)
    ensures name == name'
  {
  }

  /** sanitize_str */
  method SanitizeStr(s: array<char>, length: nat, isPath: bool) returns (wasClean: bool)
    requires length <= s.Length
    modifies s
    ensures s[..length] == Scrub(old(s[..length]), isPath) && s[length..] == old(s[length..])
    ensures wasClean <==> forall i :: 0 <= i < length ==> old(s[i]) == '\n' || IsValidChar(old(s[i]), isPath)
  {
    wasClean := true;
    ghost var was := s[..];
    for i := 0 to length
      invariant s[i..] == was[i..]
      invariant s[..i] == Scrub(was[..i], isPath)
      invariant wasClean <==> forall j :: 0 <= j < i ==> was[j] == '\n' || IsValidChar(was[j], isPath)
    {
      assert s[i] == was[i];
      if s[i] == '\n' {
        s[i] := NUL;
      }
      if !IsValidChar(s[i], isPath) {
        s[i] := '_';
        wasClean := false;
      }
    }
    assert was[..length] == old(s[..length]);
  }

  /** Sanitising a clean name changes nothing. */
  lemma NameIsClean(name: string)
    requires NUL !in name && forall c :: c in name ==> IsValidChar(c, false)
    ensures '\n' !in name && Sanitized(name, false) == name
  {
    assert name[..|name|] == name;
    CutIs(name, |name|);
  }

  // ----- module arguments -----

  datatype Config = Config(userConfFile: string, failToDefault: bool)

  /** argmatch: `match` is a proper prefix of the argument. */
  predicate ArgMatch(arg: string, prefix: string) {
    |arg| >= |prefix| + 1 && arg[..|prefix|] == prefix
  }

  const FILE_ARG: string := "user_conf_file="
  const FAIL_ARG: string := "fail_to_default="

  predicate GoodArg(arg: string) {
    ArgMatch(arg, FAIL_ARG) ==> arg[|FAIL_ARG|] == '0' || arg[|FAIL_ARG|] == '1'
  }

  function Truncate(s: string): string
  {
    if |s| <= MAX_LEN then s else s[..MAX_LEN]
  }

  /** The last argument that matches decides. */
  function LastFail(args: seq<string>): (r: bool)
  {
    if args == [] then false
    else
      var last := args[|args| - 1];
      if ArgMatch(last, FAIL_ARG) then last[|FAIL_ARG|] == '1' else LastFail(args[..|args| - 1])
  }

  function LastFile(args: seq<string>): (r: string)
  {
    if args == [] then USER_CONF_FILE_DEFAULT
    else
      var last := args[|args| - 1];
      if ArgMatch(last, FILE_ARG) then Truncate(last[|FILE_ARG|..]) else LastFile(args[..|args| - 1])
  }

  /** The argument starts with `prefix` and goes on after it. */
  ghost predicate HasValue(arg: string, prefix: string) {
    |prefix| < |arg| && prefix <= arg
  }

  ghost predicate LastWith(args: seq<string>, prefix: string, k: nat) {
    k < |args| && HasValue(args[k], prefix) && forall j :: k < j < |args| ==> !HasValue(args[j], prefix)
  }

  lemma GoodArgIff(arg: string)
    ensures GoodArg(arg) <==> (HasValue(arg, "fail_to_default=") ==> arg[16] == '0' || arg[16] == '1')
  {
  }

  lemma LastWithout(args: seq<string>, prefix: string, k: nat)
    requires LastWith(args, prefix, k) && k != |args| - 1
    ensures var n := |args| - 1;
            !ArgMatch(args[n], prefix) && LastWith(args[..n], prefix, k) && args[..n][k] == args[k]
  {
    var n := |args| - 1;
    assert !HasValue(args[n], prefix);
    forall j | 0 <= j < n ensures args[..n][j] == args[j] {
    }
  }

  lemma {:induction false} LastFailAt(args: seq<string>, k: nat)
    requires LastWith(args, FAIL_ARG, k)
    ensures LastFail(args) <==> args[k][|FAIL_ARG|] == '1'
    decreases |args|
  {
    if k != |args| - 1 {
      LastWithout(args, FAIL_ARG, k);
      LastFailAt(args[..|args| - 1], k);
    }
  }

  lemma {:induction false} LastFileAt(args: seq<string>, k: nat)
    requires LastWith(args, FILE_ARG, k)
    ensures LastFile(args) == Truncate(args[k][|FILE_ARG|..])
    decreases |args|
  {
    if k != |args| - 1 {
      LastWithout(args, FILE_ARG, k);
      LastFileAt(args[..|args| - 1], k);
    }
  }

  lemma {:induction false} NoneWith(args: seq<string>)
    ensures (forall k :: 0 <= k < |args| ==> !HasValue(args[k], FAIL_ARG)) ==> !LastFail(args)
    ensures (forall k :: 0 <= k < |args| ==> !HasValue(args[k], FILE_ARG)) ==> LastFile(args) == ".chos"
    decreases |args|
  {
    if args != [] {
      var rest := args[..|args| - 1];
      NoneWith(rest);
      assert forall k :: 0 <= k < |rest| ==> rest[k] == args[k];
    }
  }

  /** By position: the last argument with the prefix decides, and without one the default holds. */
  lemma LastFailByPosition(args: seq<string>)
    ensures forall k: nat :: LastWith(args, "fail_to_default=", k) ==> (LastFail(args) <==> args[k][16] == '1')
    ensures (forall k :: 0 <= k < |args| ==> !HasValue(args[k], "fail_to_default=")) ==> !LastFail(args)
  {
    NoneWith(args);
    forall k: nat | LastWith(args, "fail_to_default=", k) ensures LastFail(args) <==> args[k][16] == '1' {
      LastFailAt(args, k);
    }
  }

  lemma LastFileByPosition(args: seq<string>)
    ensures forall k: nat :: LastWith(args, "user_conf_file=", k) ==>
              LastFile(args) <= args[k][15..] && |LastFile(args)| == if |args[k]| - 15 < 256 then |args[k]| - 15 else 256
    ensures (forall k :: 0 <= k < |args| ==> !HasValue(args[k], "user_conf_file=")) ==> LastFile(args) == ".chos"
  {
    NoneWith(args);
    forall k: nat | LastWith(args, "user_conf_file=", k)
      ensures LastFile(args) <= args[k][15..] && |LastFile(args)| == if |args[k]| - 15 < 256 then |args[k]| - 15 else 256
    {
      LastFileAt(args, k);
    }
  }

  /** parse_pam_chos_args, after init_pam_chos_config. */
  method ParseArgs(args: seq<string>) returns (cfg: Option<Config>)
    ensures cfg.Some? <==> forall i :: 0 <= i < |args| ==> GoodArg(args[i])
    ensures cfg.Some? ==> cfg.value == Config(LastFile(args), LastFail(args))
  {
    var file, fail := USER_CONF_FILE_DEFAULT, false;
    for i := 0 to |args|
      invariant forall j :: 0 <= j < i ==> GoodArg(args[j])
      invariant file == LastFile(args[..i]) && fail == LastFail(args[..i])
    {
      var arg := args[i];
      assert args[..i + 1][..i] == args[..i];
      if ArgMatch(arg, FILE_ARG) {
        file := Truncate(arg[|FILE_ARG|..]);
      }
      if ArgMatch(arg, FAIL_ARG) {
        var val := arg[|FAIL_ARG|];
        if val == '0' {
          fail := false;
        } else if val == '1' {
          fail := true;
        } else {
          return None;
        }
      }
    }
    assert args[..|args|] == args;
    return Some(Config(file, fail));
  }

  // ----- the user's file -----

  /** What happened to the user's file: not opened, or read (up to MAXLINE bytes) and closed. */
  datatype UserFile = NotOpened | Opened(bytes: seq<char>, readOk: bool, closeOk: bool)

  function FileText(file: UserFile): (r: seq<char>)
  {
    if file.Opened? && file.readOk && file.bytes != [] then file.bytes else DEFAULT_ENV_NAME
  }

  /** The name the user's file asks for. */
  function FileName(file: UserFile): (r: string)
  {
    Sanitized(FileText(file), false)
  }

  method Fill(osenv: array<char>, text: seq<char>)
    requires |text| < osenv.Length
    modifies osenv
    ensures osenv[..|text|] == text && osenv[|text|] == NUL
  {
    for i := 0 to |text|
      invariant osenv[..i] == text[..i]
    {
      osenv[i] := text[i];
    }
    osenv[|text|] := NUL;
  }

  /** strlen and sanitize_name on a string that is in the buffer. */
  method SanitizeName(osenv: array<char>, ghost text: string)
    requires |text| < osenv.Length && osenv[..|text|] == text && osenv[|text|] == NUL && NUL !in text
    modifies osenv
    ensures CStr(osenv[..]) == Sanitized(text, false)
  {
    assert osenv[..][..|text|] == text;
    CStrIs(osenv[..], |text|);
    var length := |CStr(osenv[..])|;
    ghost var tail := osenv[length..];
    var _ := SanitizeStr(osenv, length, false);
    SanitizedBuffer(text, false);
    var scrubbed := Scrub(text, false);
    assert osenv[..] == scrubbed + tail && tail[0] == NUL;
    CStrAppend(scrubbed, tail);
  }

  lemma {:induction false} CStrAppend(s: seq<char>, tail: seq<char>)
    requires tail != [] && tail[0] == NUL
    ensures CStr(s + tail) == CStr(s)
  {
    if s != [] && s[0] != NUL {
      assert (s + tail)[1..] == s[1..] + tail;
      CStrAppend(s[1..], tail);
    }
  }

  /** Opening, reading and closing the file, or filling in the default: negative if closing failed. */
  method ReadText(osenv: array<char>, file: UserFile) returns (count: int)
    requires osenv.Length == MAXLINE + 1 && (file.Opened? ==> |file.bytes| <= MAXLINE)
    modifies osenv
    ensures count < 0 <==> file.Opened? && !file.closeOk
    ensures count >= 0 ==> |FileText(file)| <= count <= |FileText(file)| + 1 && |FileText(file)| < osenv.Length
    ensures count >= 0 ==> osenv[..|FileText(file)|] == FileText(file) && osenv[|FileText(file)|] == NUL
  {
    count := 0;
    if file.Opened? {
      if file.readOk {
        count := |file.bytes|;
        Fill(osenv, file.bytes);
      } else {
        osenv[0] := NUL;
      }
      if !file.closeOk {
        return -1;
      }
    }
    if count == 0 {
      Fill(osenv, DEFAULT_ENV_NAME);
      count := |DEFAULT_ENV_NAME| + 1;
    }
  }

  /** End the string in the buffer at its first newline. */
  method EndAtNewline(osenv: array<char>, count: nat, ghost text: seq<char>)
    requires |text| < osenv.Length && osenv[..|text|] == text && osenv[|text|] == NUL
    requires |text| <= count <= |text| + 1
    modifies osenv
    ensures |Cut(text)| < osenv.Length && osenv[..|Cut(text)|] == Cut(text) && osenv[|Cut(text)|] == NUL
  {
    var i := 0;
    while i < count && osenv[i] != '\n' && osenv[i] != NUL
      invariant i <= |text| && '\n' !in text[..i] && NUL !in text[..i]
    {
      assert osenv[i] == text[i];
      i := i + 1;
    }
    assert i < |text| ==> text[i] == osenv[i];
    CutIs(text, i);
    osenv[i] := NUL;
    assert osenv[..i] == text[..i];
  }

  /** read_chos_file; `osenv` has room for MAXLINE bytes and a zero. */
  method ReadChosFile(osenv: array<char>, file: UserFile) returns (count: int)
    requires osenv.Length == MAXLINE + 1 && (file.Opened? ==> |file.bytes| <= MAXLINE)
    modifies osenv
    ensures count < 0 <==> file.Opened? && !file.closeOk
    ensures count >= 0 ==> CStr(osenv[..]) == FileName(file)
  {
    count := ReadText(osenv, file);
    if count < 0 {
      return;
    }
    EndAtNewline(osenv, count, FileText(file));
    SanitizeName(osenv, Cut(FileText(file)));
    CutTwice(FileText(file));
  }

  lemma CutTwice(s: seq<char>)
    ensures Cut(Cut(s)) == Cut(s)
  {
    CutIs(Cut(s), |Cut(s)|);
    assert Cut(s)[..|Cut(s)|] == Cut(s);
  }

  // ----- the choice -----

  /** What the child of the session does: give up, pass a null path on, or write to the pipe. */
  datatype Outcome = Failed | NullPath | Sent(bytes: seq<char>)

  /** The system configuration, or nothing if it cannot be read or is not owned by root. */
  function LookupIn(conf: Option<seq<char>>, name: string): (r: Option<string>)
  {
    match conf case None => None case Some(file) => Lookup(PAM_LIMIT, file, name)
  }

  /** $CHOS if it is set and not too long, else the user's file, else the default. */
  function ChosenName(env: Option<string>, file: UserFile): (r: string)
  {
    if env.Some? && |env.value| <= MAXLINE then Sanitized(env.value, false) else FileName(file)
  }

  function ChosenPath(conf: Option<seq<char>>, name: string, failToDefault: bool): (r: Option<string>)
  {
    var own := LookupIn(conf, name);
    if own.Some? then own
    else if name == DEFAULT_ENV_NAME || failToDefault then LookupIn(conf, DEFAULT_ENV_NAME)
    else Some(name)
  }

  function Message(path: string, name: string): seq<char>
  {
    path + "\n" + name + "\n"
  }

  /** get_chos_info up to what it writes to the pipe. */
  method GetChosInfo(args: seq<string>, file: UserFile, env: Option<string>, conf: Option<seq<char>>)
    returns (r: Outcome)
    requires (file.Opened? ==> |file.bytes| <= MAXLINE) && (env.Some? ==> NUL !in env.value)
    ensures r.Failed? <==> (file.Opened? && !file.closeOk) || exists i :: 0 <= i < |args| && !GoodArg(args[i])
    ensures !r.Failed? ==>
              var name := ChosenName(env, file);
              var path := ChosenPath(conf, name, LastFail(args));
              r == if path.None? then NullPath else Sent(path.value + "\n" + name + "\n")
  {
    var cfg := ParseArgs(args);
    if cfg.None? {
      return Failed;
    }
    var name := ChooseName(env, file);
    if name.None? {
      return Failed;
    }
    var os := ChoosePath(conf, name.value, cfg.value.failToDefault);
    if os.None? {
      return NullPath;
    }
    r := Sent(os.value + "\n" + name.value + "\n");
  }

  /** The user's file and then $CHOS over it, in one buffer. */
  method ChooseName(env: Option<string>, file: UserFile) returns (name: Option<string>)
    requires (file.Opened? ==> |file.bytes| <= MAXLINE) && (env.Some? ==> NUL !in env.value)
    ensures name == if file.Opened? && !file.closeOk then None else Some(ChosenName(env, file))
  {
    var osenv := new char[MAXLINE + 1];
    var count := ReadChosFile(osenv, file);
    if count < 0 {
      return None;
    }
    if env.Some? && |env.value| <= MAXLINE {
      Fill(osenv, env.value);
      SanitizeName(osenv, env.value);
    }
    return Some(CStr(osenv[..]));
  }

  /** The lookup of the name and the two fallbacks. */
  method ChoosePath(conf: Option<seq<char>>, name: string, failToDefault: bool) returns (os: Option<string>)
    requires NUL !in name
    ensures os == ChosenPath(conf, name, failToDefault)
    ensures Unnamed(Shells(conf), name) && name != "default" && !failToDefault ==> os == Some(name)
    ensures Unnamed(Shells(conf), name) && Unnamed(Shells(conf), "default") && (name == "default" || failToDefault) ==> os == None
    ensures forall k: nat, p :: FirstNamed(Shells(conf), name, k, p) ==> os == Some(p)
    ensures Unnamed(Shells(conf), name) && (name == "default" || failToDefault) ==>
              forall k: nat, p :: FirstNamed(Shells(conf), "default", k, p) ==> os == Some(p)
  {
    ChosenPathCases(conf, name, failToDefault);
    os := CheckConf(conf, name);
    if os.None? {
      if name == DEFAULT_ENV_NAME || failToDefault {
        os := CheckConf(conf, DEFAULT_ENV_NAME);
      } else {
        os := Some(name);
      }
    }
  }

  /** check_chos with the checks on the file it reads. */
  method CheckConf(conf: Option<seq<char>>, name: string) returns (os: Option<string>)
    requires NUL !in name
    ensures os == LookupIn(conf, name)
  {
    if conf.None? {
      return None;
    }
    os := CheckChos(PAM_LIMIT, conf.value, name);
  }

  /**
   Where the name comes from, byte by byte: from $CHOS alone if it is set and has at most 80
   bytes, otherwise from the user's file alone if anything was read, otherwise it is "default".
   */
  lemma ChosenNameIs(env: Option<string>, file: UserFile)
    ensures env.Some? && |env.value| <= 80 ==> NameFrom(ChosenName(env, file), env.value)
    ensures (env.None? || |env.value| > 80) && file.Opened? && file.readOk && file.bytes != [] ==>
              NameFrom(ChosenName(env, file), file.bytes)
    ensures (env.None? || |env.value| > 80) && !(file.Opened? && file.readOk && file.bytes != []) ==>
              ChosenName(env, file) == "default"
  {
    if env.Some? {
      SanitizedIs(env.value);
    }
    if file.Opened? {
      SanitizedIs(file.bytes);
    }
    NameIsClean("default");
  }

  lemma ReadAs(name: string, text: seq<char>)
    requires NameFrom(name, text) && text != []
    ensures FileName(Opened(text, true, true)) == name
  {
    SanitizedIs(text);
    NameFromUnique(FileName(Opened(text, true, true)), name, text);
  }

  /** A name written by itself, with or without its newline, is what is read. */
  lemma CleanNameIsRead(name: string, rest: seq<char>)
    requires name != [] && forall c :: c in name ==> NameByte(c)
    ensures FileName(Opened(name, true, true)) == name
    ensures FileName(Opened(name + "\n" + rest, true, true)) == name
  {
    var text := name + "\n" + rest;
    assert text[..|name|] == name && name[..|name|] == name;
    forall i | 0 <= i < |name| ensures text[i] == name[i] && NameByte(name[i]) {
      assert name[i] in name;
    }
    ReadAs(name, name);
    ReadAs(name, text);
  }

  /** The chosen name is short and made of name characters only, whatever was asked for. */
  lemma ChosenNameIsClean(env: Option<string>, file: UserFile)
    requires file.Opened? ==> |file.bytes| <= MAXLINE
    ensures var name := ChosenName(env, file);
            && |name| <= MAXLINE && NUL !in name && '\n' !in name
            && (forall c :: c in name ==> IsValidChar(c, false) && NameByte(c))
            && Sanitized(name, false) == name
  {
    NameIsClean(ChosenName(env, file));
  }

  /** The %SHELLS section of the configuration, nothing if that cannot be read. */
  function Shells(conf: Option<seq<char>>): seq<string>
  {
    if conf.Some? then Section(Lines(80, conf.value), "%SHELLS") else []
  }

  ghost predicate Unnamed(ls: seq<string>, name: string) {
    forall k, p :: 0 <= k < |ls| ==> !Names(ls[k], name, p)
  }

  lemma FirstNamedIs(ls: seq<string>, name: string, k: nat, path: string)
    requires FirstNamed(ls, name, k, path)
    ensures FirstPath(ls, name) == Some(path)
  {
    FirstPathByPosition(ls, name);
    assert Names(ls[k], name, path);
    var j: nat :| FirstNamed(ls, name, j, FirstPath(ls, name).value);
    assert j == k;
    PathOfNames(ls[k], name, path);
    PathOfNames(ls[k], name, FirstPath(ls, name).value);
  }

  /** The entry, by position: the first line that names the name, or none if no line does. */
  lemma EntryByPosition(conf: Option<seq<char>>, name: string)
    ensures forall k: nat, p :: FirstNamed(Shells(conf), name, k, p) ==> LookupIn(conf, name) == Some(p)
    ensures LookupIn(conf, name).None? <==> Unnamed(Shells(conf), name)
  {
    var ls := Shells(conf);
    assert LookupIn(conf, name) == FirstPath(ls, name);
    FirstPathByPosition(ls, name);
    forall k: nat, p | FirstNamed(ls, name, k, p) ensures FirstPath(ls, name) == Some(p) {
      FirstNamedIs(ls, name, k, p);
    }
  }

  /**
   The path in every case: the first line that names the chosen name; if no line does, the name
   itself, unless the name is "default" or the last fail_to_default was 1 - then the first line
   that names "default", and a null path if no line does that either.
   */
  lemma ChosenPathCases(conf: Option<seq<char>>, name: string, failToDefault: bool)
    ensures var path, ls := ChosenPath(conf, name, failToDefault), Shells(conf);
            && (forall k: nat, p :: FirstNamed(ls, name, k, p) ==> path == Some(p))
            && (Unnamed(ls, name) && name != "default" && !failToDefault ==> path == Some(name))
            && (Unnamed(ls, name) && (name == "default" || failToDefault) ==>
                  && (forall k: nat, p :: FirstNamed(ls, "default", k, p) ==> path == Some(p))
                  && (Unnamed(ls, "default") ==> path == None))
    ensures Unnamed(Shells(conf), name) || exists k: nat, p :: FirstNamed(Shells(conf), name, k, p)
    ensures var path := ChosenPath(conf, name, failToDefault);
            && (path.None? <==> LookupIn(conf, name).None? && LookupIn(conf, DEFAULT_ENV_NAME).None?
                                && (name == DEFAULT_ENV_NAME || failToDefault))
            && (path.Some? && path != Some(name) ==>
                  exists n, k: nat :: (n == name || n == DEFAULT_ENV_NAME) && FirstNamed(Shells(conf), n, k, path.value))
  {
    EntryByPosition(conf, name);
    EntryByPosition(conf, "default");
    FirstPathByPosition(Shells(conf), name);
    FirstPathByPosition(Shells(conf), "default");
    assert LookupIn(conf, name) == FirstPath(Shells(conf), name);
    assert LookupIn(conf, "default") == FirstPath(Shells(conf), "default");
  }
}
