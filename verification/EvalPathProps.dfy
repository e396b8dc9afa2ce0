/** What every path evaluation keeps: it stays below the root location, and the first
    error is the one that is reported. */
module EvalPathProps {
  import opened Basics
  import opened EvalPath

  ghost predicate Inside(w: World, loc: Loc, root: Loc)
    requires w.Valid()
  {
    loc.Null? || w.Within(loc, root)
  }

  /** Every location reached so far is null or at or below `top`. */
  ghost predicate ConfinedTo(w: World, c: Ctx, top: Loc)
    requires w.Valid()
  {
    && Inside(w, c.current, top) && Inside(w, c.start, top)
    && forall i :: 0 <= i < |c.trail| ==> Inside(w, c.trail[i], top)
  }

  /** Every location reached so far is null or at or below the root location. */
  ghost predicate Confined(w: World, c: Ctx)
    requires w.Valid()
  {
    ConfinedTo(w, c, c.root)
  }

  /** A file system that is not mounted at any time of the evaluation. */
  ghost predicate Gone(w: World, m: nat)
  {
    forall clock :: !w.mounted(clock, m)
  }

  /** What keeps an evaluation below `top`: that is its root location, or the evaluation is
      over, or the file system is gone, so that no way upwards leads through it. */
  ghost predicate Bounded(w: World, c: Ctx, top: Loc)
  {
    c.root == top || (c.root.Null? && (c.current.At? ==> top.At? && Gone(w, top.m) && c.current.m != top.m))
  }

  /** The start location, to which the evaluation has a handle, is on the mount of `loc`. */
  ghost predicate Anchors(start: Loc, loc: Loc)
  {
    loc.At? ==> start.At? && start.m == loc.m
  }

  /** So it is for the current location, and was for every location that was taken off its
      chain without a test. */
  ghost predicate Anchored(c: Ctx)
  {
    Anchors(c.start, c.current) && forall i :: 0 <= i < |c.drops| ==> Anchors(c.drops[i].start, c.drops[i].current)
  }

  /** The current location is null exactly when an error was recorded, and `errno` still is
      that error. */
  ghost predicate Faithful(c: Ctx)
  {
    && (c.current.Null? <==> c.failed.Some?)
    && (c.failed.Some? ==> c.errno == c.failed.value)
  }

  ghost predicate Ok(w: World, c: Ctx, top: Loc, confined: bool)
    requires w.Valid()
  {
    Faithful(c) && Anchored(c) && (confined ==> ConfinedTo(w, c, top) && Bounded(w, c, top))
  }

  lemma ErrorOk(w: World, c: Ctx, e: Errno, top: Loc, confined: bool)
    requires w.Valid() && Ok(w, c, top, confined)
    ensures Ok(w, Error(c, e), top, confined)
  {
  }

  lemma RestartOk(w: World, c: Ctx, to: Loc, top: Loc, confined: bool)
    requires w.Valid() && Ok(w, c, top, confined) && c.current.At? && (confined ==> Inside(w, to, top))
    ensures Ok(w, Restart(w, c, to), top, confined)
  {
  }

  /** A token that does not leave the root location leads to a place inside it. */
  lemma LeadsInside(w: World, loc: Loc, token: string, to: Loc, root: Loc)
    requires w.Valid() && w.Leads(loc, token, to) && w.Within(loc, root)
    requires token == ".." ==> loc != root && loc.n != w.rootOf(loc.m)
    ensures w.Within(to, root)
  {
    if token != "." && token != ".." {
      assert w.Up(to) == Some(loc);
    }
  }

  lemma {:induction false} ApplyOk(w: World, c: Ctx, token: string, top: Loc, confined: bool)
    requires w.Valid() && c.current.At? && c.level <= w.maxLevel && Ok(w, c, top, confined)
    requires confined && token == ".." ==> c.current != top && c.current.n != w.rootOf(c.current.m)
    ensures Ok(w, Apply(w, c, token).c, top, confined)
    decreases w.maxLevel - c.level, |c.path|, 0, 1
  {
    hide Error, Restart, Recursive;
    var d := c.Tick();
    assert w.AnswerOk(c.clock, c.current, token, c.path != "");
    match w.answer(c.clock, c.current, token, c.path != "")
    case Enter(n, go) =>
      var to := At(c.current.m, n);
      if confined { LeadsInside(w, c.current, token, to, top); }
    case Cross(m) =>
      var to := At(m, w.rootOf(m));
      if confined {
        LeadsInside(w, c.current, token, w.pointOf(m).value, top);
        assert w.Up(to) == w.pointOf(m);
      }
      RestartOk(w, d.(token := ""), to, top, confined);
    case Follow(text) => RecursiveOk(w, d.(token := ""), text, top, confined);
    case NoEntry =>
    case Deny(e) => ErrorOk(w, d, e, top, confined);
  }

  lemma {:induction false} RecursiveOk(w: World, c: Ctx, text: string, top: Loc, confined: bool)
    requires w.Valid() && c.level <= w.maxLevel && Ok(w, c, top, confined) && c.current.At?
    ensures Ok(w, Recursive(w, c, text), top, confined)
    decreases w.maxLevel - c.level, |c.path|, 0, 0
  {
    hide Error, Restart, Steps;
    if text == "" {
      ErrorOk(w, c, ENOENT, top, confined);
    } else if c.level < w.maxLevel {
      if IsDelimiter(text[0]) {
        RestartOk(w, c, c.root, top, confined);
      }
      var c1 := if IsDelimiter(text[0]) then Restart(w, c, c.root) else c;
      var c2 := c1.(path := text, level := c.level + 1);
      StepsOk(w, c2, top, confined);
    } else {
      ErrorOk(w, c, ELOOP, top, confined);
    }
  }

  /** Every step of the evaluation keeps it confined and its first error in `errno`. */
  lemma {:induction false} StepsOk(w: World, c: Ctx, top: Loc, confined: bool)
    requires w.Valid() && c.level <= w.maxLevel && Ok(w, c, top, confined)
    ensures Ok(w, Steps(w, c), top, confined)
    decreases w.maxLevel - c.level, |c.path|, RankOf(w, c.current), 3
  {
    hide Handler, Ok;
    if c.path != "" {
      HandlerOk(w, c, top, confined);
      StepsOk(w, Handler(w, c), top, confined);
    }
  }

  lemma {:induction false} HandlerOk(w: World, c: Ctx, top: Loc, confined: bool)
    requires w.Valid() && c.level <= w.maxLevel && c.path != "" && Ok(w, c, top, confined)
    ensures Ok(w, Handler(w, c), top, confined)
    decreases w.maxLevel - c.level, |c.path|, RankOf(w, c.current), 2
  {
    hide Generic;
    if c.current.At? { GenericOk(w, c, top, confined); }
  }

  lemma {:induction false} GenericOk(w: World, c: Ctx, top: Loc, confined: bool)
    requires w.Valid() && c.level <= w.maxLevel && c.current.At? && Ok(w, c, top, confined)
    ensures Ok(w, Generic(w, c), top, confined)
    decreases w.maxLevel - c.level, |c.path|, RankOf(w, c.current), 1
  {
    hide Error, Restart, Apply, NextToken, Trimmed;
    var d := NextToken(c);
    if d.token == "" {
    } else if !w.isDirectory(d.clock, d.current) {
      ErrorOk(w, d.Tick(), ENOTDIR, top, confined);
    } else {
      var e := d.Tick();
      if e.token == "." && e.path == "" && e.flags.rejectTerminalDot {
        ErrorOk(w, e, EINVAL, top, confined);
      } else {
        match TokenFor(w, e.token, e.current, e.root)
        case None =>
          RestartOk(w, PutBack(e), w.pointOf(e.current.m).value, top, confined);
        case Some(token) =>
          ApplyOk(w, e, token, top, confined);
          var o := Apply(w, e, token);
          match o.status
          case Continue => GenericOk(w, o.c, top, confined);
          case Done =>
          case Missing =>
            ErrorOk(w, o.c.(path := Trimmed(o.c.path)), ENOENT, top, confined);
      }
    }
  }

  /** A recorded location is outside `top`, or the evaluation is over and its start location
      is. */
  ghost predicate HasLeft(w: World, c: Ctx, top: Loc)
    requires w.Valid()
  {
    || (exists i :: 0 <= i < |c.trail| && !Inside(w, c.trail[i], top))
    || (c.current.Null? && !Inside(w, c.start, top))
  }

  /** An evaluation that was not confined never is again: what was reached stays on record,
      and an evaluation that cannot even start keeps its start location. */
  lemma OutsideStaysOutside(w: World, c: Ctx, top: Loc)
    requires w.Valid() && c.level <= w.maxLevel
    requires HasLeft(w, c, top)
    ensures !ConfinedTo(w, ContinueEval(w, c), top)
  {
    hide Steps, Finish, World.Within;
    var r := ContinueEval(w, c);
    if c.current.Null? {
      assert r.start == c.start by { NullKeepsStart(w, c); }
    }
    if i :| 0 <= i < |c.trail| && !Inside(w, c.trail[i], top) {
      assert r.trail[i] == c.trail[i];
    }
  }

  lemma NullKeepsStart(w: World, c: Ctx)
    requires w.Valid() && c.level <= w.maxLevel && c.current.Null?
    ensures ContinueEval(w, c).start == c.start
  {
    assert c.path != "" ==> Steps(w, c) == c.(path := "");
  }

  lemma CheckAccessOk(w: World, c: Ctx, write: bool, top: Loc, confined: bool)
    requires w.Valid() && Ok(w, c, top, confined)
    ensures Ok(w, CheckAccess(w, c, write), top, confined)
  {
    hide Error;
    if write && (c.current.Null? || !w.writeable(c.current.m)) {
      ErrorOk(w, c, EROFS, top, confined);
    } else if c.current.Null? {
      ErrorOk(w, c, NoErrno, top, confined);
    } else {
      match w.access(c.clock, c.current, write)
      case Granted =>
      case Denied => ErrorOk(w, c.Tick(), EACCES, top, confined);
      case NoStat(e) => ErrorOk(w, c.Tick().(errno := e), NoErrno, top, confined);
    }
  }

  lemma FinishOk(w: World, c: Ctx, top: Loc, confined: bool)
    requires w.Valid() && Ok(w, c, top, confined)
    ensures Ok(w, Finish(w, c), top, confined)
  {
    hide Error, CheckAccess, Ok;
    ErrorOk(w, c, ENOENT, top, confined);
    ErrorOk(w, c, EEXIST, top, confined);
    CheckAccessOk(w, c, true, top, confined);
    CheckAccessOk(w, c, c.flags.write, top, confined);
  }

  lemma ContinueOk(w: World, c: Ctx, top: Loc, confined: bool)
    requires w.Valid() && c.level <= w.maxLevel && Ok(w, c, top, confined)
    ensures Ok(w, ContinueEval(w, c), top, confined)
  {
    hide Steps, Finish, Ok;
    StepsOk(w, c, top, confined);
    FinishOk(w, Steps(w, c), top, confined);
  }

  /** The condition under which an evaluation starts inside its root location: the path is
      empty or absolute, or the working directory cannot be obtained, or the root location
      can and the working directory is at or below it. */
  ghost predicate StartsInside(w: World, path: string, root: Loc, cwd: Loc)
    requires w.Valid()
  {
    || path == "" || IsDelimiter(path[0]) || ObtainLoc(w, 1, cwd).Null?
    || (ObtainLoc(w, 0, root).At? && w.Within(cwd, root))
  }

  lemma BeginIs(w: World, path: string, flags: Flags, root: Loc, cwd: Loc, errno: Errno)
    requires w.Valid()
    ensures var c := Begin(w, path, flags, root, cwd, errno);
            && c.root == (if path == "" then Null else ObtainLoc(w, 0, root))
            && c.start == (if path == "" then Null else ObtainLoc(w, 1, if IsDelimiter(path[0]) then c.root else cwd))
            && c.current in {c.start, Null} && c.trail == [c.current] && c.drops == [] && Faithful(c)
  {
  }

  lemma BeginOk(w: World, path: string, flags: Flags, root: Loc, cwd: Loc, errno: Errno)
    requires w.Valid()
    ensures var c := Begin(w, path, flags, root, cwd, errno);
            Ok(w, c, c.root, StartsInside(w, path, root, cwd)) && c.root in {root, Null}
  {
    hide Begin;
    BeginIs(w, path, flags, root, cwd, errno);
  }

  lemma {:induction false} NothingInNull(w: World, loc: Loc)
    requires w.Valid()
    ensures !w.Within(loc, Null)
    decreases if loc.At? then w.mountRank(loc.m) else 0, if loc.At? then w.depth(loc.m, loc.n) else 0
  {
    if loc.At? && w.Up(loc).Some? { NothingInNull(w, w.Up(loc).value); }
  }

  /** A start outside the root location is on record from the beginning. */
  lemma BeginOutside(w: World, path: string, flags: Flags, root: Loc, cwd: Loc, errno: Errno)
    requires w.Valid() && !StartsInside(w, path, root, cwd)
    ensures var c := Begin(w, path, flags, root, cwd, errno);
            HasLeft(w, c, c.root)
  {
    var c := Begin(w, path, flags, root, cwd, errno);
    NothingInNull(w, cwd);
    assert c.start == cwd && !Inside(w, cwd, c.root);
    assert |c.trail| == 1 && c.trail[0] == c.current;
  }

  /** No path leads out of the root location: an evaluation reaches, over whatever tokens,
      links and mount crossings, only locations at or below it, if and only if it starts
      inside; and one that ends at the null location reports the error that ended it. */
  lemma EvaluationStaysInside(w: World, path: string, flags: Flags, root: Loc, cwd: Loc, errno: Errno)
    requires w.Valid()
    ensures var r := Evaluate(w, path, flags, root, cwd, errno);
            Faithful(r) && (StartsInside(w, path, root, cwd) <==> Confined(w, r))
  {
    hide Begin, ContinueEval, StartsInside;
    var c := Begin(w, path, flags, root, cwd, errno);
    var confined := StartsInside(w, path, root, cwd);
    BeginOk(w, path, flags, root, cwd, errno);
    ContinueOk(w, c, c.root, confined);
    if !confined {
      BeginOutside(w, path, flags, root, cwd, errno);
      OutsideStaysOutside(w, c, c.root);
    }
  }

  /** The path is empty or absolute, or the working directory cannot be obtained, or it is at
      or below the given root location. */
  ghost predicate StartsBelow(w: World, path: string, root: Loc, cwd: Loc)
    requires w.Valid()
  {
    path == "" || IsDelimiter(path[0]) || ObtainLoc(w, 1, cwd).Null? || w.Within(cwd, root)
  }

  lemma BeginBelow(w: World, path: string, flags: Flags, root: Loc, cwd: Loc, errno: Errno)
    requires w.Valid() && (root.At? && !w.mounted(0, root.m) ==> Gone(w, root.m))
    ensures var c := Begin(w, path, flags, root, cwd, errno);
            && Ok(w, c, root, StartsBelow(w, path, root, cwd))
            && (!StartsBelow(w, path, root, cwd) ==> HasLeft(w, c, root))
  {
    hide Begin;
    BeginIs(w, path, flags, root, cwd, errno);
    var c := Begin(w, path, flags, root, cwd, errno);
    assert c.root != root && c.current.At? ==> root.At? && Gone(w, root.m) && c.current.m != root.m;
    if !StartsBelow(w, path, root, cwd) {
      assert c.start == cwd && c.trail[0] == c.current;
    }
  }

  /** Measured by the root location that the caller asked for, obtained or not: only a working
      directory outside it leads out of it. If the root's file system has been unmounted the
      evaluation has no root location, but then every way up ends at that file system. */
  lemma EvaluationStaysBelow(w: World, path: string, flags: Flags, root: Loc, cwd: Loc, errno: Errno)
    requires w.Valid() && (root.At? && !w.mounted(0, root.m) ==> Gone(w, root.m))
    ensures StartsBelow(w, path, root, cwd) <==> ConfinedTo(w, Evaluate(w, path, flags, root, cwd, errno), root)
  {
    hide Begin, ContinueEval, StartsBelow, Gone;
    var c := Begin(w, path, flags, root, cwd, errno);
    var confined := StartsBelow(w, path, root, cwd);
    BeginBelow(w, path, flags, root, cwd, errno);
    ContinueOk(w, c, root, confined);
    if !confined { OutsideStaysOutside(w, c, root); }
  }

  /** Whenever an evaluation takes a location off its chain without a test, at a restart or,
      when it is over, the current location, it has a handle on the same mount: its start
      location. */
  lemma EvaluationIsAnchored(w: World, path: string, flags: Flags, root: Loc, cwd: Loc, errno: Errno)
    requires w.Valid()
    ensures Anchored(Evaluate(w, path, flags, root, cwd, errno))
  {
    hide Begin, ContinueEval, StartsInside;
    BeginOk(w, path, flags, root, cwd, errno);
    ContinueOk(w, Begin(w, path, flags, root, cwd, errno), root, false);
  }

  /** Once the current location is null, nothing that is left of the path and no flag
      changes `errno` or finds a location again. */
  lemma FirstErrorWins(w: World, c: Ctx)
    requires w.Valid() && c.level <= w.maxLevel && c.current.Null?
    ensures ContinueEval(w, c).current == Null && ContinueEval(w, c).errno == c.errno
  {
    assert c.path != "" ==> Steps(w, c) == c.(path := "");
  }

  /** The parent's path and the name make up the path, and the name is a single one. */
  lemma ParentAndName(path: string)
    ensures path != "" && ParentLen(path) > 0 ==> ParentPath(path) + path[ParentLen(path)..] == path
    ensures ParentPath(path) == "" <==> path == ""
    ensures path != "" ==> IsDelimiter(ParentPath(path)[0]) == IsDelimiter(path[0])
    ensures forall i :: 0 <= i < |path[ParentLen(path)..]| ==> !IsDelimiter(path[ParentLen(path)..][i])
  {
  }

  lemma CloneParentOk(w: World, c: Ctx, top: Loc, confined: bool)
    requires w.Valid() && Ok(w, c, top, confined)
    ensures Ok(w, CloneParent(w, c).c, top, confined) && (confined ==> Inside(w, CloneParent(w, c).parent, top))
  {
  }

  /** The evaluation with a parent stays inside the root location as well, the parent's
      location included, and has its start location on the mount of every location it takes
      off without a test; and when the parent cannot be reached, the whole evaluation reports
      the error of the parent's evaluation. */
  lemma ParentStaysInside(w: World, path: string, flags: Flags, parentFlags: Flags, root: Loc, cwd: Loc, errno: Errno)
    requires w.Valid()
    ensures var r := EvaluateParent(w, path, flags, parentFlags, root, cwd, errno);
            && Faithful(r.c) && Anchored(r.c)
            && (StartsInside(w, path, root, cwd) ==> Confined(w, r.c) && Inside(w, r.parent, r.c.root))
    ensures var c := Evaluate(w, ParentPath(path), parentFlags, root, cwd, errno);
            var r := EvaluateParent(w, path, flags, parentFlags, root, cwd, errno);
            c.current.Null? ==> r.c.current == Null && r.c.errno == c.errno
  {
    hide Begin, ContinueEval, ParentLen, ParentPath, CloneParent, StartsInside, Ok;
    ParentStartsInside(w, path, root, cwd);
    var parentPath, confined := ParentPath(path), StartsInside(w, path, root, cwd);
    BeginOk(w, parentPath, parentFlags, root, cwd, errno);
    var b := Begin(w, parentPath, parentFlags, root, cwd, errno);
    ContinueOk(w, b, b.root, StartsInside(w, parentPath, root, cwd));
    var c := Evaluate(w, parentPath, parentFlags, root, cwd, errno);
    NameOk(w, c, path[ParentLen(path)..], flags, StartsInside(w, parentPath, root, cwd));
  }

  lemma NameOk(w: World, c: Ctx, name: string, flags: Flags, confined: bool)
    requires w.Valid() && c.level == 0 && Ok(w, c, c.root, confined)
    ensures var p := CloneParent(w, c);
            var r := ContinueEval(w, p.c.(path := name, flags := flags));
            && Faithful(r) && Anchored(r) && (confined ==> Confined(w, r) && Inside(w, p.parent, r.root))
            && (c.current.Null? ==> r.current == Null && r.errno == c.errno)
  {
    hide ContinueEval, CloneParent;
    CloneParentOk(w, c, c.root, confined);
    var d := CloneParent(w, c).c.(path := name, flags := flags);
    assert Ok(w, d, c.root, confined);
    ContinueOk(w, d, c.root, confined);
    if c.current.Null? {
      NullParent(w, c);
      FirstErrorWins(w, d);
    }
  }

  lemma ParentStartsInside(w: World, path: string, root: Loc, cwd: Loc)
    requires w.Valid()
    ensures StartsInside(w, path, root, cwd) ==> StartsInside(w, ParentPath(path), root, cwd)
  {
    hide ParentPath, ParentLen;
    ParentAndName(path);
  }

  lemma NullParent(w: World, c: Ctx)
    requires c.current.Null?
    ensures CloneParent(w, c) == WithParent(Null, c)
  {
  }

  /** A missing entry with more path behind it is an error. */
  lemma MissingEntryFails(w: World, c: Ctx, name: string, rest: string)
    requires w.Valid() && c.level <= w.maxLevel && c.current.At?
    requires c.path == name + "/" + rest && Plain(name) && Trimmed(rest) != ""
    requires w.isDirectory(c.clock, c.current) && w.answer(c.clock + 1, c.current, name, true) == NoEntry
    ensures Generic(w, c).current == Null && Generic(w, c).errno == ENOENT
  {
    hide Steps, NextToken, Run, Recursive, Restart, World.Valid, Trimmed;
    TakeName(c, name, "/" + rest);
    var e := c.(path := "/" + rest, token := name, clock := c.clock + 1);
    assert TokenFor(w, e.token, e.current, e.root) == Some(name);
    assert Apply(w, e, name) == Outcome(e.Tick(), Missing);
    assert Generic(w, c) == AfterMissing(e.Tick());
    TrimSlash(rest);
  }

  /** A backslash delimits like a slash. */
  lemma TrimSlash(rest: string)
    ensures Trimmed("/" + rest) == Trimmed(rest) == Trimmed("\\" + rest)
  {
    assert ("/" + rest)[1..] == rest == ("\\" + rest)[1..];
  }

  /** A name of a directory entry: not empty, no delimiter, not "." or "..". */
  ghost predicate Plain(name: string)
  {
    name != "" && name != "." && name != ".." && forall i :: 0 <= i < |name| ==> !IsDelimiter(name[i])
  }

  lemma {:induction false} RunOfName(name: string, rest: string)
    requires (forall i :: 0 <= i < |name| ==> !IsDelimiter(name[i])) && (rest != "" ==> IsDelimiter(rest[0]))
    ensures Run(name + rest) == |name|
  {
    var s := name + rest;
    assert forall i :: 0 <= i < |name| ==> s[i] == name[i];
    assert rest != "" ==> s[|name|] == rest[0];
  }

  lemma TakeName(c: Ctx, name: string, rest: string)
    requires Plain(name) && c.path == name + rest && (rest != "" ==> IsDelimiter(rest[0]))
    ensures NextToken(c) == c.(token := name, path := rest)
  {
    assert Trimmed(c.path) == c.path;
    RunOfName(name, rest);
    assert c.path[..|name|] == name && c.path[|name|..] == rest;
  }

  /** A token that is put back is read again, with the same text behind it. */
  lemma PutBackRereads(c: Ctx)
    requires NextToken(c).token != ""
    ensures NextToken(PutBack(NextToken(c))) == NextToken(c)
  {
    hide Trimmed, Run;
    var s := Trimmed(c.path);
    var d := NextToken(c);
    assert d.token + d.path == s;
    assert Trimmed(s) == s by { TrimmedTwice(c.path); }
  }

  lemma TrimmedTwice(s: string)
    ensures Trimmed(Trimmed(s)) == Trimmed(s)
  {
  }

  // ------------------------------------------------------------------ links to nothing

  /** The next token names a symbolic link with the given text. */
  ghost predicate AtLink(w: World, c: Ctx, text: string)
  {
    var d := NextToken(c);
    && c.current.At? && c.path != "" && d.token != "" && d.token != "." && d.token != ".."
    && w.isDirectory(c.clock, c.current)
    && w.answer(c.clock + 1, c.current, d.token, d.path != "") == Follow(text)
  }

  /** What the evaluation of the link's text ends with, before the saved path is taken up. */
  ghost function Inner(w: World, c: Ctx, text: string): (i: Ctx)
    requires w.Valid() && c.level < w.maxLevel && text != ""
    ensures i.level == c.level + 1 && i.path == "" && i.flags == c.flags && i.root == c.root
  {
    var e := NextToken(c).(token := "", clock := c.clock + 2);
    var c1 := if IsDelimiter(text[0]) then Restart(w, e, e.root) else e;
    Steps(w, c1.(path := text, level := c.level + 1))
  }

  /** The saved path behind the link's name. */
  ghost function Saved(c: Ctx): string
  {
    NextToken(c).path
  }

  lemma LinkUnfolds(w: World, c: Ctx, text: string)
    requires w.Valid() && c.level < w.maxLevel && text != "" && AtLink(w, c, text)
    ensures Steps(w, c) == Steps(w, Inner(w, c, text).(path := Saved(c), level := c.level))
  {
    hide Steps, NextToken, Trimmed, Run, World.Valid, Recursive, Inner, Restart, Error;
    RecursiveIsInner(w, c, text);
    var d := NextToken(c);
    var e := d.Tick();
    assert TokenFor(w, d.token, d.current, d.root) == Some(d.token);
    assert Apply(w, e, d.token) == Outcome(Recursive(w, e.Tick().(token := ""), text), Done);
    assert Generic(w, c) == Recursive(w, e.Tick().(token := ""), text);
    StepsUnfold(w, c);
  }

  lemma RecursiveIsInner(w: World, c: Ctx, text: string)
    requires w.Valid() && c.level < w.maxLevel && text != ""
    ensures Recursive(w, NextToken(c).Tick().Tick().(token := ""), text)
         == Inner(w, c, text).(path := Saved(c), level := c.level)
  {
    hide Steps, NextToken, Restart, World.Valid;
    assert NextToken(c).Tick().Tick().(token := "") == NextToken(c).(token := "", clock := c.clock + 2);
  }

  /** The next token replaces whatever token was there. */
  lemma TokenForgotten(w: World, c: Ctx, t: string)
    requires w.Valid() && c.level <= w.maxLevel && c.current.At? && c.path != ""
    ensures Steps(w, c.(token := t)) == Steps(w, c)
  {
    var d := c.(token := t);
    assert NextToken(d) == NextToken(c);
    assert Generic(w, d) == Generic(w, c);
    StepsUnfold(w, c);
    StepsUnfold(w, d);
  }

  /** A symbolic link whose target is missing: the evaluation of its text ends without an error
      and with a token left. At the end of the path that token stands, and unless the entry
      is to be made it is reported as ENOENT. With anything behind the link, the saved path is
      evaluated from where the text led, whatever the token was: nothing is reported. */
  lemma DanglingLink(w: World, c: Ctx, text: string)
    requires w.Valid() && c.level < w.maxLevel && text != "" && AtLink(w, c, text)
    requires Inner(w, c, text).current.At? && Inner(w, c, text).token != ""
    ensures var i := Inner(w, c, text);
            Saved(c) == "" ==>
              && Steps(w, c) == i.(level := c.level)
              && (!c.flags.make ==> ContinueEval(w, c).current == Null && ContinueEval(w, c).errno == ENOENT)
    ensures Saved(c) != "" ==>
      forall t :: Steps(w, c) == Steps(w, Inner(w, c, text).(path := Saved(c), level := c.level, token := t))
  {
    hide NextToken, Inner, AtLink, World.Valid, Generic;
    LinkUnfolds(w, c, text);
    var r := Inner(w, c, text).(path := Saved(c), level := c.level);
    if Saved(c) != "" {
      forall t ensures Steps(w, c) == Steps(w, r.(token := t)) { TokenForgotten(w, r, t); }
    }
  }

  /** The token of a missing target survives if and only if nothing is behind the link. */
  lemma MissingTargetStandsIff(w: World, c: Ctx, text: string)
    requires w.Valid() && c.level < w.maxLevel && text != "" && AtLink(w, c, text)
    requires Inner(w, c, text).current.At? && Inner(w, c, text).token != ""
    ensures var r := Inner(w, c, text).(path := Saved(c), level := c.level);
            (forall t :: Steps(w, r.(token := t)).token == t) <==> Saved(c) == ""
  {
    hide NextToken, Inner, AtLink, World.Valid, Generic;
    var r := Inner(w, c, text).(path := Saved(c), level := c.level);
    if Saved(c) != "" {
      TokenForgotten(w, r, "");
      TokenForgotten(w, r, "x");
      assert Steps(w, r.(token := "")) == Steps(w, r.(token := "x"));
    }
  }

  /** With at most delimiters behind it, a link to a missing target fails if and only if there
      are none: a single trailing delimiter turns ENOENT into a successful evaluation of the
      place where the text led, as long as that may be accessed. */
  lemma TrailingDelimiterIff(w: World, c: Ctx, text: string)
    requires w.Valid() && c.level < w.maxLevel && text != "" && AtLink(w, c, text)
    requires Inner(w, c, text).current.At? && Inner(w, c, text).token != ""
    requires Trimmed(Saved(c)) == "" && !c.flags.make && !c.flags.exclusive
    requires var i := Inner(w, c, text);
             && (c.flags.write ==> w.writeable(i.current.m))
             && w.access(i.clock, i.current, c.flags.write) == Granted
    ensures ContinueEval(w, c).current == Null <==> Saved(c) == ""
    ensures Saved(c) != "" ==> ContinueEval(w, c).current == Inner(w, c, text).current
  {
    hide Inner, AtLink, World.Valid;
    DanglingLink(w, c, text);
    var i, saved := Inner(w, c, text), Saved(c);
    if saved != "" {
      var r := i.(path := saved, level := c.level);
      OnlyDelimiters(w, r);
      assert Steps(w, c) == Steps(w, r.(token := i.token));
    }
  }

  lemma OnlyDelimiters(w: World, c: Ctx)
    requires w.Valid() && c.level <= w.maxLevel && c.current.At? && c.path != "" && Trimmed(c.path) == ""
    ensures Steps(w, c) == c.(path := "", token := "")
  {
    assert NextToken(c) == c.(path := "", token := "");
    assert Generic(w, c) == c.(path := "", token := "");
    StepsUnfold(w, c);
  }

  lemma StepsUnfold(w: World, c: Ctx)
    requires w.Valid() && c.level <= w.maxLevel && c.path != "" && c.current.At?
    ensures Steps(w, c) == Steps(w, Generic(w, c))
  {
  }
}
