/** Where ".." leads across mounts, and that it undoes a step down. */
module EvalPathParents {
  import opened Basics
  import opened EvalPath
  import opened EvalPathProps

  /** The parent of a location in the forest of mounts, cut off at the root location: from the
      root of a mounted file system it is the parent of the node it is mounted on. */
  ghost function Climb(w: World, loc: Loc, root: Loc): (r: Loc)
    requires w.Valid() && loc.At?
    ensures r.At?
    decreases w.mountRank(loc.m)
  {
    if loc == root then loc
    else if loc.n != w.rootOf(loc.m) then At(loc.m, w.parentOf(loc.m, loc.n))
    else if w.pointOf(loc.m).Some? then Climb(w, w.pointOf(loc.m).value, root)
    else loc
  }

  ghost predicate IsDir(w: World, loc: Loc)
  {
    forall clock {:trigger w.isDirectory(clock, loc)} :: w.isDirectory(clock, loc)
  }

  /** Nothing goes wrong: mounts stay mounted, locations can be cloned, mount points and the
      roots of file systems are directories, and directories know "." and "..". */
  ghost predicate Calm(w: World)
  {
    && (forall clock, m {:trigger w.mounted(clock, m)} :: w.mounted(clock, m))
    && (forall clock, loc {:trigger w.cloneError(clock, loc)} :: w.cloneError(clock, loc) == None)
    && (forall m {:trigger w.pointOf(m)} :: w.pointOf(m).Some? ==>
          IsDir(w, w.pointOf(m).value) && IsDir(w, At(m, w.rootOf(m))))
    && (forall clock, loc, more {:trigger w.answer(clock, loc, ".", more)} ::
          IsDir(w, loc) ==> w.answer(clock, loc, ".", more).Enter?)
    && (forall clock, loc, more {:trigger w.answer(clock, loc, "..", more)} ::
          IsDir(w, loc) ==> w.answer(clock, loc, "..", more).Enter?)
  }

  ghost predicate Token(token: string, rest: string)
  {
    && token != "" && (forall i :: 0 <= i < |token| ==> !IsDelimiter(token[i]))
    && (rest != "" ==> IsDelimiter(rest[0]))
  }

  lemma TakeNext(c: Ctx, token: string, rest: string)
    requires Trimmed(c.path) == token + rest && Token(token, rest)
    ensures NextToken(c) == c.(token := token, path := rest) && c.path != ""
  {
    RunOfName(token, rest);
    assert (token + rest)[..|token|] == token && (token + rest)[|token|..] == rest;
  }

  /** What the evaluation keeps while it moves without an error. */
  ghost predicate Went(d: Ctx, c: Ctx, to: Loc, rest: string)
  {
    d.current == to && d.path == rest && d.token == "" && Same(d, c) && d.errno == c.errno && d.failed == c.failed
  }

  /** After a move within the tree the driving loop goes on from there, whether the file
      system lets the token loop continue or not. */
  lemma MoveOn(w: World, c: Ctx, e: Ctx, token: string)
    requires w.Valid() && c.level <= w.maxLevel && c.path != "" && c.current.At?
    requires e.current.At? && e.level == c.level && w.answer(e.clock, e.current, token, e.path != "").Enter?
    requires var o := Apply(w, e, token); Generic(w, c) == if o.status == Continue then Generic(w, o.c) else o.c
    ensures Steps(w, c) == Steps(w, Apply(w, e, token).c)
  {
    hide NextToken, Trimmed, World.Valid;
    var o := Apply(w, e, token);
    StepsUnfold(w, c);
    if o.status == Continue {
      if o.c.path == "" {
        assert Generic(w, o.c) == o.c;
      } else {
        StepsUnfold(w, o.c);
      }
    }
  }

  /** One handler call for "..", when it does not cross a mount. */
  lemma DotDotInside(w: World, c: Ctx, rest: string) returns (d: Ctx)
    requires w.Valid() && Calm(w) && c.level <= w.maxLevel && c.current.At? && IsDir(w, c.current) && c.failed.None?
    requires Trimmed(c.path) == ".." + rest && Token("..", rest)
    requires TokenFor(w, "..", c.current, c.root).Some?
    ensures Went(d, c, Climb(w, c.current, c.root), rest) && Steps(w, c) == Steps(w, d)
  {
    hide NextToken, Trimmed, Steps, Restart, Recursive, Error;
    TakeNext(c, "..", rest);
    var e := c.(token := "..", path := rest, clock := c.clock + 1);
    assert e == NextToken(c).Tick() && w.isDirectory(c.clock, c.current);
    var token := TokenFor(w, "..", c.current, c.root).value;
    assert w.AnswerOk(e.clock, e.current, token, rest != "");
    var o := Apply(w, e, token);
    assert o.status != Missing;
    MoveOn(w, c, e, token);
    d := o.c;
  }

  /** The handler call that crosses into the mount above, with ".." still to be read. */
  lemma DotDotCrosses(w: World, c: Ctx, rest: string) returns (d: Ctx)
    requires w.Valid() && Calm(w) && c.level <= w.maxLevel && c.current.At? && IsDir(w, c.current) && c.failed.None?
    requires Trimmed(c.path) == ".." + rest && Token("..", rest)
    requires TokenFor(w, "..", c.current, c.root).None?
    ensures w.pointOf(c.current.m).Some?
    ensures Went(d, c, w.pointOf(c.current.m).value, ".." + rest) && Steps(w, c) == Steps(w, d)
  {
    hide NextToken, Trimmed, Steps, Recursive, Error, Apply;
    TakeNext(c, "..", rest);
    var e := c.(token := "..", path := rest, clock := c.clock + 1);
    assert e == NextToken(c).Tick() && w.isDirectory(c.clock, c.current);
    var point := w.pointOf(c.current.m).value;
    assert PutBack(e) == e.(path := ".." + rest, token := "");
    d := Restart(w, PutBack(e), point);
    assert w.mounted(e.clock, point.m) && w.cloneError(e.clock + 1, point) == None;
    assert Generic(w, c) == d;
    StepsUnfold(w, c);
  }

  /** ".." leads to the parent in the forest of mounts, through any stack of mounts and never
      above the root location, and what follows is evaluated from there. */
  lemma {:induction false} DotDotClimbs(w: World, c: Ctx, rest: string) returns (d: Ctx)
    requires w.Valid() && Calm(w) && c.level <= w.maxLevel && c.current.At? && IsDir(w, c.current) && c.failed.None?
    requires Trimmed(c.path) == ".." + rest && Token("..", rest)
    ensures Went(d, c, Climb(w, c.current, c.root), rest) && Steps(w, c) == Steps(w, d)
    decreases w.mountRank(c.current.m)
  {
    hide Trimmed, Steps;
    if TokenFor(w, "..", c.current, c.root).Some? {
      d := DotDotInside(w, c, rest);
    } else {
      var e := DotDotCrosses(w, c, rest);
      assert Trimmed(e.path) == e.path by { NothingToTrim(e.path); }
      d := DotDotClimbs(w, e, rest);
    }
  }

  lemma NothingToTrim(s: string)
    requires s != "" && !IsDelimiter(s[0])
    ensures Trimmed(s) == s
  {
  }

  /** A step down: to a child, or to the root of what is mounted on a child. */
  ghost predicate Below(w: World, loc: Loc, to: Loc)
    requires w.Valid()
  {
    && loc.At? && to.At? && IsDir(w, to)
    && ((to.m == loc.m && to.n != w.rootOf(to.m) && w.parentOf(to.m, to.n) == loc.n)
        || (&& to.n == w.rootOf(to.m) && w.pointOf(to.m).Some?
            && var p := w.pointOf(to.m).value; p.m == loc.m && p.n != w.rootOf(p.m) && w.parentOf(p.m, p.n) == loc.n))
  }

  /** Locations inside the root location are no older than it. */
  lemma {:induction false} InsideIsYounger(w: World, loc: Loc, top: Loc)
    requires w.Valid() && w.Within(loc, top)
    ensures loc.At? && top.At?
    ensures || w.mountRank(top.m) < w.mountRank(loc.m)
            || (top.m == loc.m && w.depth(top.m, top.n) <= w.depth(loc.m, loc.n))
    decreases w.mountRank(loc.m), w.depth(loc.m, loc.n)
  {
    if loc != top { InsideIsYounger(w, w.Up(loc).value, top); }
  }

  /** Climbing undoes a step down. */
  lemma ClimbUndoesDescent(w: World, loc: Loc, to: Loc, root: Loc)
    requires w.Valid() && w.Within(loc, root) && Below(w, loc, to)
    ensures Climb(w, to, root) == loc
  {
    InsideIsYounger(w, loc, root);
    if to.m != loc.m || to.n == w.rootOf(to.m) {
      var p := w.pointOf(to.m).value;
      assert w.depth(p.m, w.parentOf(p.m, p.n)) < w.depth(p.m, p.n);
    } else {
      assert w.depth(to.m, w.parentOf(to.m, to.n)) < w.depth(to.m, to.n);
    }
  }

  /** The handler call for a name that leads down. */
  lemma NameDescends(w: World, c: Ctx, name: string, rest: string) returns (d: Ctx)
    requires w.Valid() && Calm(w) && c.level <= w.maxLevel && c.current.At? && IsDir(w, c.current) && c.failed.None?
    requires Plain(name) && rest != "" && Trimmed(c.path) == name + rest && Token(name, rest)
    requires var a := w.answer(c.clock + 1, c.current, name, true);
             a.Cross? || (a.Enter? && IsDir(w, At(c.current.m, a.n)))
    ensures Below(w, c.current, d.current) && Went(d, c, d.current, rest) && Steps(w, c) == Steps(w, d)
  {
    hide NextToken, Trimmed, Steps, Recursive, Error;
    TakeNext(c, name, rest);
    var e := c.(token := name, path := rest, clock := c.clock + 1);
    assert e == NextToken(c).Tick() && w.isDirectory(c.clock, c.current);
    assert w.AnswerOk(e.clock, e.current, name, true);
    assert TokenFor(w, name, c.current, c.root) == Some(name);
    var o := Apply(w, e, name);
    d := o.c;
    match w.answer(e.clock, e.current, name, true)
    case Enter(_, _) =>
      MoveOn(w, c, e, name);
    case Cross(m) =>
      assert w.mounted(e.clock + 1, m) && w.cloneError(e.clock + 2, At(m, w.rootOf(m))) == None;
      assert Generic(w, c) == d;
      StepsUnfold(w, c);
  }

  /** Going down by a name and up by ".." leads back, also when the name crosses into a
      mounted file system. */
  lemma DownAndUp(w: World, c: Ctx, name: string, rest: string) returns (d: Ctx)
    requires w.Valid() && Calm(w) && c.level <= w.maxLevel && IsDir(w, c.current) && c.failed.None?
    requires w.Within(c.current, c.root)
    requires Plain(name) && c.path == name + "/.." + rest && Token("..", rest)
    requires var a := w.answer(c.clock + 1, c.current, name, true);
             a.Cross? || (a.Enter? && IsDir(w, At(c.current.m, a.n)))
    ensures Went(d, c, c.current, rest) && Steps(w, c) == Steps(w, d)
  {
    hide Steps, Trimmed, NextToken;
    var behind := "/.." + rest;
    assert name + "/.." + rest == name + behind;
    assert Trimmed(c.path) == c.path by { NothingToTrim(c.path); }
    var e := NameDescends(w, c, name, behind);
    assert Trimmed(behind) == ".." + rest by { TrimOne(rest); }
    d := DotDotClimbs(w, e, rest);
    ClimbUndoesDescent(w, c.current, e.current, c.root);
  }

  lemma TrimOne(rest: string)
    ensures Trimmed("/.." + rest) == ".." + rest
  {
    assert ("/.." + rest)[1..] == ".." + rest;
    NothingToTrim(".." + rest);
  }
}
