/** The path evaluator: a token at a time through a forest of mounted file systems, with
    symbolic links evaluated by recursion. */
module EvalPath {
  import opened Basics

  /** A location: a node of a mounted file system, or the null location. */
  datatype Loc = Null | At(m: nat, n: nat)

  datatype Errno = NoErrno | EINVAL | ENOENT | ENOTDIR | ELOOP | ENXIO | EACCES | EROFS | EEXIST | Other(code: int)

  datatype Flags = Flags(
    make: bool, exclusive: bool, rejectTerminalDot: bool, acceptResidualDelimiters: bool, write: bool)

  /** What a file system's `eval_token` does with a token: move within the tree (and let the
      loop go on or not), cross down into a mounted file system, start on a symbolic link's
      text, report that there is no such entry, or report an error. */
  datatype Answer = Enter(n: nat, go: bool) | Cross(m: nat) | Follow(text: string) | NoEntry | Deny(errno: Errno)

  datatype Access = Granted | Denied | NoStat(errno: Errno)

  /** The file systems, as the evaluator sees them. Their trees and mount points are fixed.
      What answers they give, what is mounted and what can be cloned may change while a path is
      evaluated, and is indexed by a clock that advances with every question asked. */
  datatype World = World(
    rootOf: nat -> nat,
    pointOf: nat -> Option<Loc>,
    parentOf: (nat, nat) -> nat,
    isDirectory: (nat, Loc) -> bool,
    answer: (nat, Loc, string, bool) -> Answer,
    mounted: (nat, nat) -> bool,
    cloneError: (nat, Loc) -> Option<Errno>,
    access: (nat, Loc, bool) -> Access,
    writeable: nat -> bool,
    mountRank: nat -> nat,
    depth: (nat, nat) -> nat,
    maxLevel: nat)
  {
    /** One step towards the root of everything: the parent, or from a file system's root
        to the node it is mounted on. */
    function Up(loc: Loc): Option<Loc>
      requires loc.At?
    {
      if loc.n == rootOf(loc.m) then pointOf(loc.m) else Some(At(loc.m, parentOf(loc.m, loc.n)))
    }

    /** Where a token may lead from `loc`: "." stays, ".." goes to the parent, a name goes to
        a child. */
    ghost predicate Leads(loc: Loc, token: string, to: Loc)
    {
      && loc.At? && to.At?
      && (token == "." ==> to == loc)
      && (token == ".." ==> to == At(loc.m, parentOf(loc.m, loc.n)))
      && (token != "." && token != ".." ==> to.m == loc.m && to.n != rootOf(to.m) && parentOf(to.m, to.n) == loc.n)
    }

    ghost predicate AnswerOk(clock: nat, loc: Loc, token: string, more: bool)
    {
      loc.At? ==>
      match answer(clock, loc, token, more)
      case Enter(n, _) => Leads(loc, token, At(loc.m, n))
      case Cross(m) => pointOf(m).Some? && Leads(loc, token, pointOf(m).value)
      case Deny(e) => e != NoErrno
      case _ => true
    }

    /** What file systems promise: the mounts form a forest, the nodes of each a tree, and
        `eval_token` moves along it. */
    ghost predicate Valid()
    {
      && (forall m {:trigger pointOf(m)} :: pointOf(m).Some? ==>
            pointOf(m).value.At? && mountRank(pointOf(m).value.m) < mountRank(m))
      && (forall m, n {:trigger parentOf(m, n)} :: n != rootOf(m) ==> depth(m, parentOf(m, n)) < depth(m, n))
      && (forall clock, loc, token, more {:trigger AnswerOk(clock, loc, token, more)} ::
            AnswerOk(clock, loc, token, more))
      && (forall clock, loc {:trigger cloneError(clock, loc)} :: cloneError(clock, loc) != Some(NoErrno))
      && (forall clock, loc, w {:trigger access(clock, loc, w)} :: access(clock, loc, w) != NoStat(NoErrno))
    }

    /** `loc` is `top` or lies below it, across mounts. */
    ghost predicate Within(loc: Loc, top: Loc)
      requires Valid()
      decreases if loc.At? then mountRank(loc.m) else 0, if loc.At? then depth(loc.m, loc.n) else 0
    {
      loc.At? && (loc == top || (Up(loc).Some? && Within(Up(loc).value, top)))
    }
  }

  /** A location taken off its mount's chain without a readiness test, and the start location
      that the evaluation had a handle to at that moment. */
  datatype Drop = Drop(current: Loc, start: Loc)

  /** The evaluation context, with `errno`. `trail` records every value of the current
      location, `drops` what was taken off for a restart, `failed` the `errno` with which the
      current location became null. */
  datatype Ctx = Ctx(
    path: string,
    token: string,
    flags: Flags,
    level: nat,
    current: Loc,
    start: Loc,
    root: Loc,
    errno: Errno,
    clock: nat,
    trail: seq<Loc>,
    drops: seq<Drop>,
    failed: Option<Errno>)
  {
    function Moved(loc: Loc): (c: Ctx)
      ensures c.current == loc && c.path == path && c.token == token && c.level == level && c.flags == flags
      ensures c.start == start && c.root == root && c.errno == errno && c.clock == clock && c.trail == trail + [loc]
    {
      this.(current := loc, trail := trail + [loc], failed := if failed.None? && loc.Null? then Some(errno) else failed)
    }

    function Tick(): Ctx
    {
      this.(clock := clock + 1)
    }
  }

  predicate IsDelimiter(c: char)
  {
    c == '/' || c == '\\'
  }

  /** The text behind leading delimiters. */
  function Trimmed(s: string): (r: string)
    ensures |r| <= |s| && (r != "" ==> !IsDelimiter(r[0]))
  {
    if s != "" && IsDelimiter(s[0]) then Trimmed(s[1..]) else s
  }

  /** Length of the leading run without delimiters. */
  function Run(s: string): (k: nat)
    ensures k <= |s| && (k < |s| ==> IsDelimiter(s[k]))
    ensures forall i :: 0 <= i < k ==> !IsDelimiter(s[i])
  {
    if s == "" || IsDelimiter(s[0]) then 0 else 1 + Run(s[1..])
  }

  function NextToken(c: Ctx): (r: Ctx)
    ensures r == c.(path := r.path, token := r.token)
    ensures |r.path| + |r.token| <= |c.path| && (c.path != "" ==> |r.path| < |c.path|)
  {
    var s := Trimmed(c.path);
    c.(token := s[..Run(s)], path := s[Run(s)..])
  }

  /** `rtems_filesystem_eval_path_put_back_token`. */
  function PutBack(c: Ctx): (r: Ctx)
  {
    c.(path := c.token + c.path, token := "")
  }

  /** Ends the evaluation with an error, unless it already has ended with one. */
  function Error(c: Ctx, e: Errno): (r: Ctx)
    ensures r.path == "" && r.current == Null && Same(r, c) && r.start == c.start
  {
    var d := c.(path := "", token := "");
    if c.current.Null? then d else d.(errno := if e != NoErrno then e else c.errno).Moved(Null)
  }

  /** The current location becomes a clone of the start location. */
  function CloneStart(w: World, c: Ctx): (r: Ctx)
    ensures r.path == c.path && r.token == c.token && Same(r, c) && r.start == c.start && r.current in {c.start, Null}
  {
    if c.start.Null? then c.Moved(Null) else
    match w.cloneError(c.clock, c.start)
    case None => c.Tick().Moved(c.start)
    case Some(e) => c.Tick().(errno := e).Moved(Null)
  }

  /** `rtems_filesystem_eval_path_restart`: the current location goes off its chain, then the
      new start location is obtained and cloned. */
  function Restart(w: World, c: Ctx, to: Loc): (r: Ctx)
    ensures r.path == c.path && r.token == c.token && Same(r, c)
    ensures r.current == Null || (r.current == to && r.start == to)
    ensures r.start == Null || r.start == to
  {
    var s := ObtainLoc(w, c.clock, to);
    CloneStart(w, c.Tick().(start := s, errno := if s.Null? then ENXIO else c.errno,
                            drops := c.drops + [Drop(c.current, c.start)]))
  }

  datatype Status = Continue | Done | Missing

  datatype Outcome = Outcome(c: Ctx, status: Status)

  function RankOf(w: World, loc: Loc): nat
  {
    if loc.At? then w.mountRank(loc.m) + 1 else 0
  }

  /** Parts of the context that no evaluation changes; what it has passed stays recorded. */
  ghost predicate Same(r: Ctx, c: Ctx)
  {
    r.level == c.level && r.flags == c.flags && r.root == c.root && c.trail <= r.trail
  }

  /** The answer to a token, carried out. */
  function Apply(w: World, c: Ctx, token: string): (o: Outcome)
    requires w.Valid() && c.current.At? && c.level <= w.maxLevel
    ensures Same(o.c, c) && (o.c.path == c.path || o.c.path == "")
    ensures o.status == Continue ==> o.c.current.At?
    decreases w.maxLevel - c.level, |c.path|, 0, 1
  {
    var d := c.Tick();
    match w.answer(c.clock, c.current, token, c.path != "")
    case Enter(n, go) => Outcome(d.(token := "").Moved(At(c.current.m, n)), if go then Continue else Done)
    case Cross(m) => Outcome(Restart(w, d.(token := ""), At(m, w.rootOf(m))), Done)
    case Follow(text) => Outcome(Recursive(w, d.(token := ""), text), Done)
    case NoEntry => Outcome(d, Missing)
    case Deny(e) => Outcome(Error(d, e), Done)
  }

  /** `rtems_filesystem_eval_path_recursive`: evaluate the text of a link, then take up the
      saved path again. */
  function Recursive(w: World, c: Ctx, text: string): (r: Ctx)
    requires w.Valid() && c.level <= w.maxLevel
    ensures Same(r, c) && (r.path == c.path || r.path == "")
    decreases w.maxLevel - c.level, |c.path|, 0, 0
  {
    if text == "" then Error(c, ENOENT)
    else if c.level < w.maxLevel then
      var c1 := if IsDelimiter(text[0]) then Restart(w, c, c.root) else c;
      Steps(w, c1.(path := text, level := c.level + 1)).(path := c.path, level := c.level)
    else Error(c, ELOOP)
  }

  /** The loop that drives the handler of whatever file system the evaluation is in. */
  function Steps(w: World, c: Ctx): (r: Ctx)
    requires w.Valid() && c.level <= w.maxLevel
    ensures Same(r, c) && r.path == ""
    decreases w.maxLevel - c.level, |c.path|, RankOf(w, c.current), 3
  {
    if c.path == "" then c else Steps(w, Handler(w, c))
  }

  /** `eval_path_h`: the null file system clears the path and stays null. Every call uses up
      text, or leaves the text as it is and goes up to an older mount. */
  function Handler(w: World, c: Ctx): (r: Ctx)
    requires w.Valid() && c.level <= w.maxLevel && c.path != ""
    ensures Same(r, c) && (|r.path| < |c.path| || (|r.path| == |c.path| && RankOf(w, r.current) < RankOf(w, c.current)))
    decreases w.maxLevel - c.level, |c.path|, RankOf(w, c.current), 2
  {
    if c.current.Null? then c.(path := "") else Generic(w, c)
  }

  /** The token after the checks for "." and "..": what is asked of the file system, or the
      end of this call. `None` stands for the crossing into the mount above. */
  function TokenFor(w: World, token: string, current: Loc, root: Loc): (t: Option<string>)
    requires current.At?
  {
    if token != ".." then Some(token)
    else if current == root then Some(".")
    else if current.n != w.rootOf(current.m) then Some("..")
    else if w.pointOf(current.m).Some? then None
    else Some(".")
  }

  /** What follows an answer: a missing entry is an error when more path is behind it. */
  function AfterMissing(c: Ctx): (r: Ctx)
    ensures Same(r, c) && |r.path| <= |c.path|
  {
    if c.path == "" then c
    else
      var d := c.(path := Trimmed(c.path));
      if !c.flags.acceptResidualDelimiters || d.path != "" then Error(d, ENOENT) else d
  }

  /** `rtems_filesystem_eval_path_generic`. */
  function Generic(w: World, c: Ctx): (r: Ctx)
    requires w.Valid() && c.level <= w.maxLevel && c.current.At?
    ensures Same(r, c) && |r.path| <= |c.path|
    ensures c.path != "" ==> |r.path| < |c.path| || RankOf(w, r.current) < RankOf(w, c.current)
    decreases w.maxLevel - c.level, |c.path|, RankOf(w, c.current), 1
  {
    var d := NextToken(c);
    if d.token == "" then d
    else if !w.isDirectory(d.clock, d.current) then Error(d.Tick(), ENOTDIR)
    else
      var e := d.Tick();
      if e.token == "." && e.path == "" && e.flags.rejectTerminalDot then Error(e, EINVAL) else
      match TokenFor(w, e.token, e.current, e.root)
      case None => Restart(w, PutBack(e), w.pointOf(e.current.m).value)
      case Some(token) =>
        var o := Apply(w, e, token);
        match o.status
        case Continue => Generic(w, o.c)
        case Done => o.c
        case Missing => AfterMissing(o.c)
  }

  /** The access check at the end, on the location the evaluation arrived at. */
  function CheckAccess(w: World, c: Ctx, write: bool): (r: Ctx)
    ensures r.current == c.current || r.current == Null
    ensures Same(r, c)
  {
    if write && (c.current.Null? || !w.writeable(c.current.m)) then Error(c, EROFS)
    else if c.current.Null? then Error(c, NoErrno)
    else
      match w.access(c.clock, c.current, write)
      case Granted => c.Tick()
      case Denied => Error(c.Tick(), EACCES)
      case NoStat(e) => Error(c.Tick().(errno := e), NoErrno)
  }

  /** `rtems_filesystem_eval_path_continue`. */
  function ContinueEval(w: World, c: Ctx): (r: Ctx)
    requires w.Valid() && c.level <= w.maxLevel
    ensures Same(r, c)
  {
    Finish(w, Steps(w, c))
  }

  function Finish(w: World, c: Ctx): (r: Ctx)
    ensures Same(r, c)
  {
    if c.token != "" then
      if c.flags.make then CheckAccess(w, c, true) else Error(c, ENOENT)
    else
      if !c.flags.exclusive then CheckAccess(w, c, c.flags.write) else Error(c, EEXIST)
  }

  function ObtainLoc(w: World, clock: nat, to: Loc): (r: Loc)
    ensures r == to || r == Null
  {
    if to.At? && w.mounted(clock, to.m) then to else Null
  }

  /** `set_startloc`: the context with its root and start location. */
  function Started(w: World, path: string, flags: Flags, root: Loc, cwd: Loc, errno: Errno): (c: Ctx)
    ensures c.level == 0
  {
    var r := if path == "" then Null else ObtainLoc(w, 0, root);
    var e1 := if r.Null? then ENXIO else errno;
    var absolute := path != "" && IsDelimiter(path[0]);
    var s := if path == "" then Null else ObtainLoc(w, 1, if absolute then r else cwd);
    var e2 := if path == "" then ENOENT else if s.Null? then ENXIO else e1;
    Ctx(if absolute then path[1..] else path, "", flags, 0, s, s, r, e2, 2, [], [], None)
  }

  /** The start of an evaluation, with the clone of the start location. */
  function Begin(w: World, path: string, flags: Flags, root: Loc, cwd: Loc, errno: Errno): (c: Ctx)
    ensures c.level == 0
  {
    CloneStart(w, Started(w, path, flags, root, cwd, errno))
  }

  /** `rtems_filesystem_eval_path_start_with_root_and_current`. */
  function Evaluate(w: World, path: string, flags: Flags, root: Loc, cwd: Loc, errno: Errno): (r: Ctx)
    requires w.Valid()
    ensures r.level == 0
  {
    ContinueEval(w, Begin(w, path, flags, root, cwd, errno))
  }

  /** Length of the part of a path that ends with its last delimiter. */
  function ParentLen(path: string): (k: nat)
    ensures k <= |path| && (k > 0 ==> IsDelimiter(path[k - 1]))
    ensures forall i :: k <= i < |path| ==> !IsDelimiter(path[i])
  {
    if path == "" || IsDelimiter(path[|path| - 1]) then |path| else ParentLen(path[..|path| - 1])
  }

  function ParentPath(path: string): string
  {
    if path == "" then "" else if ParentLen(path) == 0 then "." else path[..ParentLen(path)]
  }

  datatype WithParent = WithParent(parent: Loc, c: Ctx)

  /** The clone of the parent's location that the caller gets. */
  function CloneParent(w: World, c: Ctx): (r: WithParent)
    ensures Same(r.c, c) && r.c.current == c.current && r.parent in {Null, c.current}
  {
    if c.current.Null? then WithParent(Null, c) else
    match w.cloneError(c.clock, c.current)
    case None => WithParent(c.current, c.Tick())
    case Some(e) => WithParent(Null, c.Tick().(errno := e))
  }

  /** `rtems_filesystem_eval_path_start_with_parent`: the path up to its last delimiter, then
      the name behind it in the same context. */
  function EvaluateParent(w: World, path: string, flags: Flags, parentFlags: Flags, root: Loc, cwd: Loc, errno: Errno)
    : (r: WithParent)
    requires w.Valid()
  {
    var p := CloneParent(w, Evaluate(w, ParentPath(path), parentFlags, root, cwd, errno));
    WithParent(p.parent, ContinueEval(w, p.c.(path := path[ParentLen(path)..], flags := flags)))
  }
}
