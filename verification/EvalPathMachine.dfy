/** The evaluation context as the object whose fields the evaluator's functions update, each
    proved against its function on context values. */
module EvalPathMachine {
  import opened Basics
  import opened EvalPath

  /** `set_startloc`. */
  method SetStart(w: World, path: string, ghost flags: Flags, root: Loc, cwd: Loc, errno: Errno)
    returns (rest: string, r: Loc, s: Loc, e: Errno)
    ensures Started(w, path, flags, root, cwd, errno) == Ctx(rest, "", flags, 0, s, s, r, e, 2, [], [], None)
  {
    rest, r, s, e := path, Null, Null, ENOENT;
    if path != "" {
      r := ObtainLoc(w, 0, root);
      e := if r.Null? then ENXIO else errno;
      if IsDelimiter(path[0]) {
        rest := path[1..];
        s := ObtainLoc(w, 1, r);
      } else {
        s := ObtainLoc(w, 1, cwd);
      }
      e := if s.Null? then ENXIO else e;
    }
  }

  class Context {
    const w: World
    var path: string
    var token: string
    var flags: Flags
    var level: nat
    var current: Loc
    var start: Loc
    var root: Loc
    var errno: Errno
    var clock: nat
    ghost var trail: seq<Loc>
    ghost var drops: seq<Drop>
    ghost var failed: Option<Errno>

    ghost function Value(): Ctx
      reads this
    {
      Ctx(path, token, flags, level, current, start, root, errno, clock, trail, drops, failed)
    }

    constructor (w: World, path: string, flags: Flags, root: Loc, cwd: Loc, errno: Errno)
      requires w.Valid()
      ensures this.w == w && Value() == Begin(w, path, flags, root, cwd, errno)
    {
      hide World.Valid, CloneStart, Started, ObtainLoc;
      this.w := w;
      var rest, r, s, e := SetStart(w, path, flags, root, cwd, errno);
      this.path, this.token, this.flags, this.level := rest, "", flags, 0;
      this.root, this.start, this.current, this.errno, this.clock := r, s, s, e, 2;
      this.trail, this.drops, this.failed := [], [], None;
      new;
      CloneFromStart();
    }

    /** The current location becomes a clone of the start location. */
    method CloneFromStart()
      modifies this`current, this`errno, this`clock, this`trail, this`failed
      ensures Value() == CloneStart(w, old(Value()))
    {
      hide World.Valid;
      var loc := start;
      if loc.At? {
        var clone := w.cloneError(clock, loc);
        clock := clock + 1;
        if clone.Some? {
          errno, loc := clone.value, Null;
        }
      }
      MoveTo(loc);
    }

    ghost predicate Usable()
      reads this
    {
      w.Valid() && level <= w.maxLevel
    }

    method MoveTo(loc: Loc)
      modifies this`current, this`trail, this`failed
      ensures Value() == old(Value()).Moved(loc)
    {
      current := loc;
      trail := trail + [loc];
      failed := if failed.None? && loc.Null? then Some(errno) else failed;
    }

    /** Skips delimiters, one at a time. */
    method EatDelimiter()
      modifies this`path
      ensures path == Trimmed(old(path))
    {
      var k := 0;
      while k < |path| && IsDelimiter(path[k])
        invariant k <= |path| && Trimmed(path[k..]) == Trimmed(path)
      {
        assert path[k..][1..] == path[k + 1..];
        k := k + 1;
      }
      path := path[k..];
    }

    /** Takes the next token off the path. */
    method TakeToken()
      modifies this`path, this`token
      ensures Value() == EvalPath.NextToken(old(Value()))
    {
      EatDelimiter();
      var k := 0;
      while k < |path| && !IsDelimiter(path[k])
        invariant k <= |path| && Run(path) == k + Run(path[k..])
      {
        assert path[k..][1..] == path[k + 1..];
        k := k + 1;
      }
      token := path[..k];
      path := path[k..];
    }

    method PutBackToken()
      modifies this`path, this`token
      ensures Value() == EvalPath.PutBack(old(Value()))
    {
      path := token + path;
      token := "";
    }

    method Fail(e: Errno)
      modifies this
      ensures Value() == EvalPath.Error(old(Value()), e)
    {
      path, token := "", "";
      if current.At? {
        if e != NoErrno {
          errno := e;
        }
        MoveTo(Null);
      }
    }

    method RestartAt(to: Loc)
      modifies this
      ensures Value() == EvalPath.Restart(w, old(Value()), to)
    {
      hide World.Valid, CloneStart;
      drops := drops + [Drop(current, start)];
      start := ObtainLoc(w, clock, to);
      clock := clock + 1;
      if start.Null? {
        errno := ENXIO;
      }
      CloneFromStart();
    }

    method EvalToken(name: string) returns (status: Status)
      requires Usable() && current.At?
      modifies this
      ensures Usable() && EvalPath.Apply(w, old(Value()), name) == Outcome(Value(), status)
      decreases w.maxLevel - level, 1
    {
      hide EvalPath.Restart, EvalPath.Error, EvalPath.Recursive, World.Valid;
      var a := w.answer(clock, current, name, path != "");
      clock := clock + 1;
      match a
      case Enter(n, go) =>
        token := "";
        MoveTo(At(current.m, n));
        status := if go then Continue else Done;
      case Cross(m) =>
        token := "";
        RestartAt(At(m, w.rootOf(m)));
        status := Done;
      case Follow(text) =>
        token := "";
        EvalRecursive(text);
        status := Done;
      case NoEntry => status := Missing;
      case Deny(e) =>
        Fail(e);
        status := Done;
    }

    method EvalRecursive(text: string)
      requires Usable()
      modifies this
      ensures Usable() && Value() == EvalPath.Recursive(w, old(Value()), text)
      decreases w.maxLevel - level, 0
    {
      hide EvalPath.Restart, EvalPath.Error, EvalPath.Steps, World.Valid;
      if text == "" {
        Fail(ENOENT);
      } else if level < w.maxLevel {
        var savedPath := path;
        if IsDelimiter(text[0]) {
          RestartAt(root);
        }
        path := text;
        level := level + 1;
        RunSteps();
        level := level - 1;
        path := savedPath;
      } else {
        Fail(ELOOP);
      }
    }

    /** The driving loop. Its measure is the unread text, then the rank of the mount the
        evaluation is in: a crossing upwards uses up no text. */
    method RunSteps()
      requires Usable()
      modifies this
      ensures Usable() && Value() == EvalPath.Steps(w, old(Value()))
      decreases w.maxLevel - level, 5
    {
      ghost var before := level;
      while path != ""
        invariant Usable() && level == before
        invariant EvalPath.Steps(w, Value()) == EvalPath.Steps(w, old(Value()))
        decreases |path|, RankOf(w, current)
      {
        CallHandler();
      }
    }

    method CallHandler()
      requires Usable() && path != ""
      modifies this
      ensures Usable() && Value() == EvalPath.Handler(w, old(Value()))
      decreases w.maxLevel - level, 4
    {
      if current.Null? {
        path := "";
      } else {
        EvalGeneric();
      }
    }

    /** `rtems_filesystem_eval_path_generic`: one token a round while the file system says so. */
    method EvalGeneric()
      requires Usable() && current.At?
      modifies this
      ensures Usable() && Value() == EvalPath.Generic(w, old(Value()))
      decreases w.maxLevel - level, 3
    {
      var status := Continue;
      ghost var before := level;
      while status == Continue
        invariant Usable() && level == before
        invariant status == Continue ==>
          current.At? && EvalPath.Generic(w, Value()) == EvalPath.Generic(w, old(Value()))
        invariant status != Continue ==> Value() == EvalPath.Generic(w, old(Value()))
        decreases status == Continue, |path|
      {
        status := GenericRound();
      }
    }

    method GenericRound() returns (status: Status)
      requires Usable() && current.At?
      modifies this
      ensures Usable() && level == old(level)
      ensures status == Continue ==>
        |path| < |old(path)| && current.At? && EvalPath.Generic(w, Value()) == EvalPath.Generic(w, old(Value()))
      ensures status != Continue ==> Value() == EvalPath.Generic(w, old(Value()))
      decreases w.maxLevel - level, 2
    {
      hide EvalPath.Steps, EvalPath.Apply, EvalPath.Restart, EvalPath.Error, EvalPath.NextToken, Trimmed;
      TakeToken();
      status := Done;
      if token == "" {
        return;
      }
      var dir := w.isDirectory(clock, current);
      clock := clock + 1;
      if !dir {
        Fail(ENOTDIR);
      } else if token == "." && path == "" && flags.rejectTerminalDot {
        Fail(EINVAL);
      } else {
        var t := TokenFor(w, token, current, root);
        if t.None? {
          PutBackToken();
          RestartAt(w.pointOf(current.m).value);
        } else {
          status := EvalToken(t.value);
          if status == Missing && path != "" {
            EatDelimiter();
            if !flags.acceptResidualDelimiters || path != "" {
              Fail(ENOENT);
            }
          }
        }
      }
    }

    method CheckFinal(write: bool)
      modifies this
      ensures Value() == CheckAccess(w, old(Value()), write)
    {
      if !write || (current.At? && w.writeable(current.m)) {
        if current.Null? {
          Fail(NoErrno);
        } else {
          var a := w.access(clock, current, write);
          clock := clock + 1;
          match a
          case Granted =>
          case Denied => Fail(EACCES);
          case NoStat(e) =>
            errno := e;
            Fail(NoErrno);
        }
      } else {
        Fail(EROFS);
      }
    }

    /** `rtems_filesystem_eval_path_continue`. */
    method ContinuePath()
      requires Usable()
      modifies this
      ensures Value() == EvalPath.ContinueEval(w, old(Value()))
    {
      RunSteps();
      if token != "" {
        if flags.make {
          CheckFinal(true);
        } else {
          Fail(ENOENT);
        }
      } else if !flags.exclusive {
        CheckFinal(flags.write);
      } else {
        Fail(EEXIST);
      }
    }

    /** A clone of the current location for the caller. */
    method ClonedCurrent() returns (loc: Loc)
      modifies this`clock, this`errno
      ensures WithParent(loc, Value()) == CloneParent(w, old(Value()))
    {
      loc := current;
      if loc.At? {
        var clone := w.cloneError(clock, loc);
        clock := clock + 1;
        if clone.Some? {
          errno := clone.value;
          loc := Null;
        }
      }
    }
  }

  /** `get_parentpathlen`. */
  method ParentPathLen(path: string) returns (k: nat)
    ensures k == ParentLen(path)
  {
    k := |path|;
    while k > 0
      invariant k <= |path| && ParentLen(path[..k]) == ParentLen(path)
    {
      if IsDelimiter(path[k - 1]) {
        return;
      }
      assert path[..k][..k - 1] == path[..k - 1];
      k := k - 1;
    }
  }

  /** The path to the parent, and the name to look up in it. */
  method SplitPath(path: string) returns (parentPath: string, name: string)
    ensures parentPath == ParentPath(path) && name == path[ParentLen(path)..]
  {
    var k := ParentPathLen(path);
    parentPath, name := path, "";
    if |path| > 0 {
      if k == 0 {
        parentPath, name := ".", path;
      } else {
        parentPath, name := path[..k], path[k..];
      }
    }
  }

  /** `rtems_filesystem_eval_path_start_with_parent`. */
  method StartWithParent(w: World, path: string, flags: Flags, parentFlags: Flags, root: Loc, cwd: Loc, errno: Errno)
    returns (ctx: Context, parent: Loc)
    requires w.Valid()
    ensures WithParent(parent, ctx.Value()) == EvaluateParent(w, path, flags, parentFlags, root, cwd, errno)
  {
    hide EvalPath.ContinueEval, EvalPath.Begin, CloneParent, World.Valid, ParentPath, ParentLen;
    var parentPath, name := SplitPath(path);
    ctx := new Context(w, parentPath, parentFlags, root, cwd, errno);
    ctx.ContinuePath();
    assert ctx.Value() == Evaluate(w, parentPath, parentFlags, root, cwd, errno);
    parent := ctx.ClonedCurrent();
    ghost var p := ctx.Value();
    ctx.path, ctx.flags := name, flags;
    assert ctx.Value() == p.(path := name, flags := flags);
    ctx.ContinuePath();
  }
}
