/** What an evaluation does with each token, how it starts and how it ends: outcomes that
    depend only on the path and on what the file systems answer. */
module EvalLaws {
  import opened Basics
  import opened EvalPath
  import opened EvalPathProps
  import opened EvalPathParents

  // ------------------------------------------------------------------ one token

  /** The next token of the path, with what is behind it. */
  ghost predicate Reads(w: World, c: Ctx, token: string, rest: string)
  {
    w.Valid() && c.level <= w.maxLevel && c.current.At? && Trimmed(c.path) == token + rest && Token(token, rest)
  }

  /** The evaluation has failed: no location, no text left, and the error is recorded. */
  ghost function Failed(c: Ctx, e: Errno, clock: nat): Ctx
  {
    c.(path := "", token := "", current := Null, errno := e, clock := clock, trail := c.trail + [Null],
       failed := if c.failed.None? then Some(e) else c.failed)
  }

  /** The evaluation goes on at `to`, with `rest` to be read. */
  ghost function At1(c: Ctx, to: Loc, rest: string, clock: nat): Ctx
  {
    c.(path := rest, token := "", current := to, clock := clock, trail := c.trail + [to])
  }

  /** The same on another mount, where a restart has taken it. */
  ghost function Over(c: Ctx, to: Loc, rest: string, clock: nat): Ctx
  {
    At1(c, to, rest, clock).(start := to, drops := c.drops + [Drop(c.current, c.start)])
  }

  /** A dot at the end of a path that does not allow it. */
  predicate BadDot(c: Ctx, token: string, rest: string)
  {
    token == "." && rest == "" && c.flags.rejectTerminalDot
  }

  /** ".." in the root of a mounted file system other than the root location. */
  predicate Leaves(w: World, c: Ctx, token: string)
  {
    token == ".." && c.current.At? && c.current != c.root && c.current.n == w.rootOf(c.current.m)
    && w.pointOf(c.current.m).Some?
  }

  /** What a file system is asked for a token: ".." is "." in the root location and in the root
      of all file systems. */
  function Asked(w: World, c: Ctx, token: string): string
  {
    if token == ".." && c.current.At? && (c.current == c.root || c.current.n == w.rootOf(c.current.m)) then "."
    else token
  }

  /** The state in which a file system is asked. */
  lemma Asking(w: World, c: Ctx, token: string, rest: string)
    requires Reads(w, c, token, rest)
    ensures c.path != "" && Steps(w, c) == Steps(w, Generic(w, c))
    ensures NextToken(c) == c.(token := token, path := rest)
  {
    TakeNext(c, token, rest);
    StepsUnfold(w, c);
  }

  /** A token that is read where there is no directory is ENOTDIR. */
  lemma NotADirectory(w: World, c: Ctx, token: string, rest: string)
    requires Reads(w, c, token, rest) && !w.isDirectory(c.clock, c.current)
    ensures Steps(w, c) == Failed(c, ENOTDIR, c.clock + 1)
  {
    Asking(w, c, token, rest);
    assert Generic(w, c) == Failed(c, ENOTDIR, c.clock + 1);
  }

  /** A dot at the end, where it is rejected, is EINVAL. */
  lemma RejectedDot(w: World, c: Ctx, token: string, rest: string)
    requires Reads(w, c, token, rest) && w.isDirectory(c.clock, c.current) && BadDot(c, token, rest)
    ensures Steps(w, c) == Failed(c, EINVAL, c.clock + 1)
  {
    Asking(w, c, token, rest);
    assert Generic(w, c) == Failed(c, EINVAL, c.clock + 1);
  }

  /** The file system is asked for the token. */
  ghost predicate Asks(w: World, c: Ctx, token: string, rest: string, a: Answer)
  {
    && Reads(w, c, token, rest) && w.isDirectory(c.clock, c.current)
    && !BadDot(c, token, rest) && !Leaves(w, c, token)
    && a == w.answer(c.clock + 1, c.current, Asked(w, c, token), rest != "")
  }

  lemma Answered(w: World, c: Ctx, token: string, rest: string, a: Answer)
    requires Asks(w, c, token, rest, a)
    ensures c.path != "" && Steps(w, c) == Steps(w, Generic(w, c))
    ensures var e := c.(token := token, path := rest, clock := c.clock + 1);
            var o := Apply(w, e, Asked(w, c, token));
            && w.AnswerOk(e.clock, e.current, Asked(w, c, token), rest != "")
            && a == w.answer(e.clock, e.current, Asked(w, c, token), e.path != "")
            && Generic(w, c) == match o.status
                                case Continue => Generic(w, o.c)
                                case Done => o.c
                                case Missing => AfterMissing(o.c)
  {
    hide Apply, AfterMissing, NextToken, Trimmed, Steps;
    Asking(w, c, token, rest);
    var e := c.(token := token, path := rest, clock := c.clock + 1);
    assert NextToken(c).Tick() == e;
    assert TokenFor(w, token, c.current, c.root) == Some(Asked(w, c, token));
  }

  /** A move within the tree: the rest is evaluated from there, whether the file system lets
      the token loop go on or not. */
  lemma Entered(w: World, c: Ctx, token: string, rest: string, n: nat, go: bool)
    requires Asks(w, c, token, rest, Enter(n, go))
    ensures Steps(w, c) == Steps(w, At1(c, At(c.current.m, n), rest, c.clock + 2))
  {
    hide Generic, Trimmed;
    Answered(w, c, token, rest, Enter(n, go));
    var e := c.(token := token, path := rest, clock := c.clock + 1);
    assert Apply(w, e, Asked(w, c, token)).c == At1(c, At(c.current.m, n), rest, c.clock + 2);
    MoveOn(w, c, e, Asked(w, c, token));
  }

  lemma NothingLeft(w: World, c: Ctx)
    requires w.Valid() && c.level <= w.maxLevel && c.path == ""
    ensures Steps(w, c) == c
  {
  }

  /** An error that the file system reports. */
  lemma Denied(w: World, c: Ctx, token: string, rest: string, errno: Errno)
    requires Asks(w, c, token, rest, Deny(errno))
    ensures Steps(w, c) == Failed(c, errno, c.clock + 2)
  {
    hide Trimmed, Steps, Generic, NextToken;
    Answered(w, c, token, rest, Deny(errno));
    NothingLeft(w, Failed(c, errno, c.clock + 2));
  }

  /** What obtaining and cloning `to` at a time of the evaluation fails with, if it does. */
  function Refusal(w: World, clock: nat, to: Loc): Option<Errno>
  {
    if to.Null? || !w.mounted(clock, to.m) then Some(ENXIO) else w.cloneError(clock + 1, to)
  }

  /** A restart at a location that can be obtained and cloned, or one that cannot. */
  lemma Restarts(w: World, c: Ctx, to: Loc)
    requires w.Valid() && c.level <= w.maxLevel && c.current.At?
    ensures var r, no := Restart(w, c, to), Refusal(w, c.clock, to);
            if no.None? then r == Over(c, to, c.path, c.clock + 2).(token := c.token)
            else && r.current == Null && r.errno == no.value && Same(r, c) && r.path == c.path && r.token == c.token
                 && r.drops == c.drops + [Drop(c.current, c.start)]
  {
  }

  /** A null location ends the evaluation, with its error. */
  ghost predicate Ends(r: Ctx, e: Errno)
  {
    r.current == Null && r.path == "" && r.errno == e
  }

  /** A restart has ended it; what was taken off for the restart is on record. */
  ghost predicate EndsOver(c: Ctx, r: Ctx, e: Errno)
  {
    Ends(r, e) && r.drops == c.drops + [Drop(c.current, c.start)]
  }

  lemma NullEnds(w: World, c: Ctx)
    requires w.Valid() && c.level <= w.maxLevel && c.current.Null?
    ensures Ends(Steps(w, c), c.errno) && Steps(w, c).token == c.token && Steps(w, c).drops == c.drops
  {
    assert c.path != "" ==> Steps(w, c) == c.(path := "");
  }

  /** A token that names a mount point: the rest is evaluated from the root of the file system
      that is mounted there, or that fails. */
  lemma Crossed(w: World, c: Ctx, token: string, rest: string, m: nat)
    requires Asks(w, c, token, rest, Cross(m))
    ensures var to := At(m, w.rootOf(m));
            match Refusal(w, c.clock + 2, to)
            case None => Steps(w, c) == Steps(w, Over(c, to, rest, c.clock + 4))
            case Some(e) => EndsOver(c, Steps(w, c), e)
  {
    hide Trimmed, Steps, Generic, NextToken, Restart, World.Valid;
    Answered(w, c, token, rest, Cross(m));
    var d := c.(token := "", path := rest, clock := c.clock + 2);
    var to := At(m, w.rootOf(m));
    Restarts(w, d, to);
    assert Generic(w, c) == Restart(w, d, to);
    if Refusal(w, c.clock + 2, to).Some? { NullEnds(w, Restart(w, d, to)); }
  }

  /** ".." in the root of a mounted file system: it is evaluated again from the node that the
      file system is mounted on. */
  lemma LeftUpwards(w: World, c: Ctx, rest: string)
    requires Reads(w, c, "..", rest) && w.isDirectory(c.clock, c.current) && Leaves(w, c, "..")
    ensures var to := w.pointOf(c.current.m).value;
            match Refusal(w, c.clock + 1, to)
            case None => Steps(w, c) == Steps(w, Over(c, to, ".." + rest, c.clock + 3))
            case Some(e) => EndsOver(c, Steps(w, c), e)
  {
    hide Trimmed, Steps, NextToken, Restart;
    Asking(w, c, "..", rest);
    var d := c.(token := "", path := ".." + rest, clock := c.clock + 1);
    assert PutBack(c.(token := "..", path := rest).Tick()) == d;
    var to := w.pointOf(c.current.m).value;
    Restarts(w, d, to);
    assert Generic(w, c) == Restart(w, d, to);
    if Refusal(w, c.clock + 1, to).Some? { NullEnds(w, Restart(w, d, to)); }
  }

  /** A name without an entry: at the end of the path it is left over as the token; a path that
      goes on is ENOENT, unless only delimiters follow and the caller accepts them. */
  lemma NotThere(w: World, c: Ctx, token: string, rest: string)
    requires Asks(w, c, token, rest, NoEntry)
    ensures Steps(w, c) == if rest == "" || (Trimmed(rest) == "" && c.flags.acceptResidualDelimiters)
                           then c.(path := "", token := token, clock := c.clock + 2)
                           else Failed(c, ENOENT, c.clock + 2)
  {
    hide Steps, Generic, NextToken;
    Answered(w, c, token, rest, NoEntry);
    NothingLeft(w, Generic(w, c));
  }

  /** A link with an empty text, or too many of them. */
  lemma LinkRefused(w: World, c: Ctx, token: string, rest: string, text: string)
    requires Asks(w, c, token, rest, Follow(text)) && (text == "" || c.level == w.maxLevel)
    ensures Steps(w, c) == Failed(c, if text == "" then ENOENT else ELOOP, c.clock + 2)
  {
    hide Trimmed, Steps, Generic, NextToken;
    Answered(w, c, token, rest, Follow(text));
    NothingLeft(w, Failed(c, if text == "" then ENOENT else ELOOP, c.clock + 2));
  }

  /** A link: its text is evaluated one level down, from here or, when it is absolute, from the
      root location; the rest is evaluated from where that ends. */
  lemma LinkFollowed(w: World, c: Ctx, token: string, rest: string, text: string)
    requires Asks(w, c, token, rest, Follow(text)) && text != "" && c.level < w.maxLevel
    ensures !IsDelimiter(text[0]) ==>
              var i := Steps(w, c.(path := text, token := "", level := c.level + 1, clock := c.clock + 2));
              Steps(w, c) == Steps(w, i.(path := rest, level := c.level))
    ensures IsDelimiter(text[0]) ==>
              match Refusal(w, c.clock + 2, c.root)
              case None =>
                var i := Steps(w, Over(c, c.root, text, c.clock + 4).(level := c.level + 1));
                Steps(w, c) == Steps(w, i.(path := rest, level := c.level))
              case Some(e) => EndsOver(c, Steps(w, c), e)
  {
    hide Trimmed, Steps, Generic, NextToken, Restart, World.Valid;
    Answered(w, c, token, rest, Follow(text));
    var d := c.(token := "", path := rest, clock := c.clock + 2);
    assert Generic(w, c) == Recursive(w, d, text);
    if IsDelimiter(text[0]) {
      Restarts(w, d, c.root);
      var r := Restart(w, d, c.root).(path := text, level := c.level + 1);
      if Refusal(w, c.clock + 2, c.root).Some? {
        NullEnds(w, r);
        NullEnds(w, Steps(w, r).(path := rest, level := c.level));
      }
    }
  }

  // ------------------------------------------------------------------ the end

  /** The error with which an evaluation ends at a location that it has reached: the token or
      its absence does not suit the flags, or the location may not be accessed. */
  function Objection(w: World, c: Ctx): Option<Errno>
    requires c.current.At?
  {
    var write := c.token != "" || c.flags.write;
    if c.token != "" && !c.flags.make then Some(ENOENT)
    else if c.token == "" && c.flags.exclusive then Some(EEXIST)
    else if write && !w.writeable(c.current.m) then Some(EROFS)
    else
      match w.access(c.clock, c.current, write)
      case Granted => None
      case Denied => Some(EACCES)
      case NoStat(e) => Some(e)
  }

  /** An evaluation that has read its path succeeds, at the location where it is, if and only if
      a token is left that is to be made, or none is left and the entry need not be new, and
      the access asked for is granted, on a writeable mount if it is write access. */
  lemma SucceedsIff(w: World, c: Ctx)
    requires w.Valid() && c.level <= w.maxLevel && c.current.At? && c.path == ""
    ensures var r, write := ContinueEval(w, c), c.token != "" || c.flags.write;
            r.current.At? <==>
              && (if c.token != "" then c.flags.make else !c.flags.exclusive)
              && (write ==> w.writeable(c.current.m))
              && w.access(c.clock, c.current, write) == Granted
    ensures var r := ContinueEval(w, c);
            match Objection(w, c)
            case None => r == c.(clock := c.clock + 1)
            case Some(e) => Ends(r, e) && r.token == ""
  {
    NothingLeft(w, c);
  }

  // ------------------------------------------------------------------ the start

  /** The location that an evaluation starts from, once obtained, else null. */
  function StartLoc(w: World, path: string, root: Loc, cwd: Loc): Loc
  {
    var rootThere := root.At? && w.mounted(0, root.m);
    if path == "" then Null
    else if IsDelimiter(path[0]) then (if rootThere && w.mounted(1, root.m) then root else Null)
    else if cwd.At? && w.mounted(1, cwd.m) then cwd else Null
  }

  /** An evaluation reads all of its path, of an absolute one what is behind the first
      delimiter, from its start location; without one, or when that cannot be cloned, it
      fails. `errno` is ENXIO from then on if the root location could not be obtained. */
  lemma Starts(w: World, path: string, flags: Flags, root: Loc, cwd: Loc, errno: Errno)
    requires w.Valid()
    ensures var s := StartLoc(w, path, root, cwd);
            var rootThere := root.At? && w.mounted(0, root.m);
            var text := if path != "" && IsDelimiter(path[0]) then path[1..] else path;
            var r := Evaluate(w, path, flags, root, cwd, errno);
            if path == "" then Ends(r, ENOENT)
            else if s.Null? then Ends(r, ENXIO)
            else match w.cloneError(2, s)
                 case Some(e) => Ends(r, e)
                 case None =>
                   r == ContinueEval(w, Ctx(text, "", flags, 0, s, s, if rootThere then root else Null,
                                            if rootThere then errno else ENXIO, 3, [s], [], None))
  {
    hide ContinueEval, World.Valid;
    var c := Begin(w, path, flags, root, cwd, errno);
    assert c.trail == [c.current];
    if c.current.Null? { NullFails(w, c); }
  }

  lemma NullFails(w: World, c: Ctx)
    requires w.Valid() && c.level <= w.maxLevel && c.current.Null?
    ensures Ends(ContinueEval(w, c), c.errno)
  {
    assert c.path != "" ==> Steps(w, c) == c.(path := "");
  }

  /** Delimiters in front of a token do not matter. */
  lemma LeadingDelimiters(w: World, c: Ctx)
    requires w.Valid() && c.level <= w.maxLevel && Trimmed(c.path) != ""
    ensures Steps(w, c) == Steps(w, c.(path := Trimmed(c.path)))
  {
    var d := c.(path := Trimmed(c.path));
    if c.current.At? {
      assert NextToken(d) == NextToken(c) by { TrimmedTwice(c.path); }
      StepsUnfold(w, c);
      StepsUnfold(w, d);
    } else {
      assert Steps(w, c) == c.(path := "") && Steps(w, d) == d.(path := "");
    }
  }

  /** An absolute path leads where the text behind its delimiters leads from the root location. */
  lemma AbsoluteIsFromRoot(w: World, path: string, flags: Flags, root: Loc, cwd: Loc, errno: Errno)
    requires w.Valid() && path != "" && IsDelimiter(path[0]) && Trimmed(path) != ""
    requires root.At? && w.mounted(0, root.m) && w.mounted(1, root.m)
    ensures Evaluate(w, path, flags, root, cwd, errno) == Evaluate(w, Trimmed(path), flags, root, root, errno)
  {
    hide Steps, ContinueEval, World.Valid;
    var rest := Trimmed(path);
    Starts(w, path, flags, root, cwd, errno);
    Starts(w, rest, flags, root, root, errno);
    var c := Begin(w, path, flags, root, cwd, errno);
    var d := Begin(w, rest, flags, root, root, errno);
    assert c.path == path[1..] && Trimmed(path[1..]) == rest;
    assert d == c.(path := rest);
    SameContinued(w, c, rest);
  }

  lemma SameContinued(w: World, c: Ctx, rest: string)
    requires w.Valid() && c.level <= w.maxLevel && Trimmed(c.path) == rest != ""
    ensures ContinueEval(w, c) == ContinueEval(w, c.(path := rest))
  {
    hide Steps, Finish, Trimmed;
    LeadingDelimiters(w, c);
  }

  // ------------------------------------------------------------------ with a parent

  lemma ParentLenIs(dir: string, name: string)
    requires (dir == "" || IsDelimiter(dir[|dir| - 1])) && forall i :: 0 <= i < |name| ==> !IsDelimiter(name[i])
    ensures ParentLen(dir + name) == |dir|
  {
    var path := dir + name;
    assert dir != "" ==> path[|dir| - 1] == dir[|dir| - 1];
    assert forall i :: |dir| <= i < |path| ==> path[i] == name[i - |dir|];
  }

  /** A directory part and a name: the parent is where the directory part leads, and the name is
      looked up from there, with the flags for the name. */
  lemma ParentThenName(w: World, dir: string, name: string, flags: Flags, parentFlags: Flags, root: Loc, cwd: Loc,
                       errno: Errno)
    requires w.Valid() && dir != "" && IsDelimiter(dir[|dir| - 1])
    requires forall i :: 0 <= i < |name| ==> !IsDelimiter(name[i])
    ensures var p := Evaluate(w, dir, parentFlags, root, cwd, errno);
            var r := EvaluateParent(w, dir + name, flags, parentFlags, root, cwd, errno);
            Parted(w, p, name, flags, r)
  {
    hide ContinueEval, Begin, World.Valid;
    ParentLenIs(dir, name);
    assert (dir + name)[..|dir|] == dir && (dir + name)[|dir|..] == name;
  }

  /** What comes of a name behind a parent that was evaluated to `p`. */
  ghost predicate Parted(w: World, p: Ctx, name: string, flags: Flags, r: WithParent)
    requires w.Valid() && p.level <= w.maxLevel
  {
    if p.current.Null? then r == WithParent(Null, ContinueEval(w, p.(path := name, flags := flags)))
    else
      match w.cloneError(p.clock, p.current)
      case None =>
        r == WithParent(p.current, ContinueEval(w, p.(path := name, flags := flags, clock := p.clock + 1)))
      case Some(e) =>
        r == WithParent(Null, ContinueEval(w, p.(path := name, flags := flags, clock := p.clock + 1, errno := e)))
  }

  /** For a name alone the parent is what "." leads to. */
  lemma ParentOfName(w: World, name: string, flags: Flags, parentFlags: Flags, root: Loc, cwd: Loc, errno: Errno)
    requires w.Valid() && name != "" && forall i :: 0 <= i < |name| ==> !IsDelimiter(name[i])
    ensures var p := Evaluate(w, ".", parentFlags, root, cwd, errno);
            Parted(w, p, name, flags, EvaluateParent(w, name, flags, parentFlags, root, cwd, errno))
  {
    hide ContinueEval, Begin, World.Valid;
    ParentLenIs("", name);
    assert "" + name == name && name[0..] == name;
  }

  /** When nothing goes wrong that is the working directory, and the name is looked up there. */
  lemma ParentIsCwd(w: World, name: string, flags: Flags, parentFlags: Flags, root: Loc, cwd: Loc, errno: Errno)
    requires w.Valid() && Calm(w) && name != "" && forall i :: 0 <= i < |name| ==> !IsDelimiter(name[i])
    requires root.At? && cwd.At? && IsDir(w, cwd)
    requires !parentFlags.exclusive && !parentFlags.rejectTerminalDot
    requires parentFlags.write ==> w.writeable(cwd.m)
    requires w.access(5, cwd, parentFlags.write) == Granted
    ensures var r := EvaluateParent(w, name, flags, parentFlags, root, cwd, errno);
            && r.parent == cwd
            && r.c == ContinueEval(w, Ctx(name, "", flags, 0, cwd, cwd, root, errno, 7, [cwd, cwd], [], None))
  {
    hide ContinueEval, Begin, World.Valid, EvaluateParent, Steps;
    assert w.mounted(0, root.m) && w.mounted(1, cwd.m) && w.cloneError(2, cwd) == None;
    Starts(w, ".", parentFlags, root, cwd, errno);
    var c := Ctx(".", "", parentFlags, 0, cwd, cwd, root, errno, 3, [cwd], [], None);
    DotStays(w, c);
    var d := c.(path := "", clock := 5, trail := [cwd, cwd]);
    SameFinish(w, c, d);
    SucceedsIff(w, d);
    ParentOfName(w, name, flags, parentFlags, root, cwd, errno);
    assert w.cloneError(6, cwd) == None;
  }

  lemma SameFinish(w: World, c: Ctx, d: Ctx)
    requires w.Valid() && c.level <= w.maxLevel && d.level <= w.maxLevel && Steps(w, c) == d && d.path == ""
    ensures ContinueEval(w, c) == ContinueEval(w, d)
  {
    NothingLeft(w, d);
  }

  lemma DotStays(w: World, c: Ctx)
    requires w.Valid() && Calm(w) && c.level <= w.maxLevel && c.path == "." && c.current.At? && IsDir(w, c.current)
    requires c.token == "" && !c.flags.rejectTerminalDot
    ensures Steps(w, c) == c.(path := "", clock := c.clock + 2, trail := c.trail + [c.current])
  {
    assert Token(".", "") && "." + "" == ".";
    NothingToTrim(".");
    var a := w.answer(c.clock + 1, c.current, ".", false);
    assert w.isDirectory(c.clock, c.current) && w.AnswerOk(c.clock + 1, c.current, ".", false);
    assert Asks(w, c, ".", "", a);
    Entered(w, c, ".", "", a.n, a.go);
    NothingLeft(w, At1(c, c.current, "", c.clock + 2));
  }
}
