/** What `realpath` computes: pathname resolution over a stack of components and a list of
    tokens. Resolution itself knows no buffers and no length limits and reads every link
    whole; what the limits of the code do to it is said apart. */
module RealpathMeaning {
  import opened Basics
  import opened PathText
  import opened Realpath

  datatype Walked = At(stack: seq<string>) | Broke(errno: Errno, at: string) | OutOfLinks(at: string)

  function Pop(stack: seq<string>): (r: seq<string>)
    ensures r <= stack
  {
    if stack == [] then [] else stack[..|stack| - 1]
  }

  /** The tokens to read once a link is expanded: those of its text, then the rest. A
      trailing slash of the text adds no token of its own when something follows. */
  function Expanded(target: string, rest: seq<string>): seq<string>
  {
    var ts := Split(target);
    if rest == [] then ts
    else if target != "" && target[|target| - 1] == '/' then ts[..|ts| - 1] + rest
    else ts + rest
  }

  datatype Step = End(w: Walked) | Next(stack: seq<string>, tokens: seq<string>, budget: nat)

  /** The step for a symbolic link `here` with `rest` behind it. */
  function LinkWalk(env: Env, stack: seq<string>, here: string, rest: seq<string>, budget: nat): (s: Step)
    ensures if s.Next? then s.budget < budget else !s.w.At?
  {
    if budget == 0 then End(OutOfLinks(here)) else
    match env.readlink(here)
    case NoLink(e) => End(Broke(e, here))
    case Target(x) => Next(if x != "" && x[0] == '/' then [] else stack, Expanded(x, rest), budget - 1)
  }

  /** One token of pathname resolution: names are pushed, ".." pops, "." is skipped, an
      empty token demands a directory, a link is replaced by its text. */
  function TokenWalk(env: Env, stack: seq<string>, t: string, rest: seq<string>, budget: nat): (s: Step)
    ensures s.Next? ==> s.budget < budget || (s.budget == budget && s.tokens == rest)
    ensures s.End? ==> !s.w.At?
  {
    if t == "" then
      match env.lstat(RenderDir(stack))
      case NoStat(e) => End(Broke(e, RenderDir(stack)))
      case Directory => Next(stack, rest, budget)
      case _ => End(Broke(ENOTDIR, RenderDir(stack)))
    else if t == "." then Next(stack, rest, budget)
    else if t == ".." then Next(Pop(stack), rest, budget)
    else
      var here := stack + [t];
      match env.lstat(Render(here))
      case NoStat(e) => End(Broke(e, Render(here)))
      case Symlink => LinkWalk(env, stack, Render(here), rest, budget)
      case _ => Next(here, rest, budget)
  }

  /** Pathname resolution that may follow `budget` links. */
  function Walk(env: Env, stack: seq<string>, tokens: seq<string>, budget: nat): (w: Walked)
    decreases budget, |tokens|
  {
    if tokens == [] then At(stack) else
    match TokenWalk(env, stack, tokens[0], tokens[1..], budget)
    case End(w) => w
    case Next(s, ts, b) => Walk(env, s, ts, b)
  }

  lemma WalkUnfolds(env: Env, stack: seq<string>, t: string, ts: seq<string>, budget: nat)
    ensures Walk(env, stack, [t] + ts, budget)
         == var s := TokenWalk(env, stack, t, ts, budget);
            if s.End? then s.w else Walk(env, s.stack, s.tokens, s.budget)
  {
    assert ([t] + ts)[1..] == ts;
  }

  /** A step stays within the length limit: the directory with its slash, the name behind
      it, and the text to read once a link is expanded are all shorter than `PATH_MAX`. */
  predicate StepFits(env: Env, stack: seq<string>, t: string, rest: seq<string>, budget: nat)
  {
    && |RenderDir(stack)| < env.pathMax
    && (t != "" && t != "." && t != ".." ==>
          && |Render(stack + [t])| < env.pathMax
          && (env.lstat(Render(stack + [t])).Symlink? ==> LinkFits(env, Render(stack + [t]), rest, budget)))
  }

  predicate LinkFits(env: Env, here: string, rest: seq<string>, budget: nat)
  {
    var link := env.readlink(here);
    budget > 0 && link.Target? ==> Expanded(link.text, rest) != [] && |Join(Expanded(link.text, rest))| < env.pathMax
  }

  /** Every step of a walk stays within the length limit. */
  predicate WalkFits(env: Env, stack: seq<string>, tokens: seq<string>, budget: nat)
    decreases budget, |tokens|
  {
    tokens == [] ||
    (&& StepFits(env, stack, tokens[0], tokens[1..], budget)
     && var s := TokenWalk(env, stack, tokens[0], tokens[1..], budget);
        (s.Next? ==> WalkFits(env, s.stack, s.tokens, s.budget)))
  }

  /** How an outcome of `realpath` reports the end of a walk. */
  function Reported(w: Walked): Outcome
  {
    match w
    case At(stack) => Resolved(Render(stack))
    case Broke(e, at) => Failed(e, at)
    case OutOfLinks(at) => Failed(ELOOP, at)
  }

  function Tokens(left: string, more: bool): seq<string>
  {
    if more then Split(left) else []
  }

  lemma TokensOfRest(left: string)
    ensures Split(left) == [left[..FirstSlash(left)]] + Tokens(Rest(left), FirstSlash(left) < |left|)
  {
    if FirstSlash(left) == |left| {
      assert left[..FirstSlash(left)] == left;
    }
  }

  /** The spliced text has exactly the expanded tokens. */
  lemma SplicedTokens(x: string, rest: string, found: bool, pathMax: nat)
    requires x != "" && Spliced(x, rest, found, pathMax).Some?
    ensures Split(Spliced(x, rest, found, pathMax).value) == Expanded(x, Tokens(rest, found))
  {
    if found {
      if x[|x| - 1] == '/' {
        var y := x[..|x| - 1];
        assert x == y + "/" + "";
        SplitAppend(y, "");
        assert x + rest == y + "/" + rest;
        SplitAppend(y, rest);
        assert Split("") == [""];
        assert (Split(y) + [""])[..|Split(y)|] == Split(y);
      } else {
        SplitAppend(x, rest);
      }
    }
  }

  /** The splice is refused exactly when the text of the expanded tokens is too long. */
  lemma SplicedFits(x: string, rest: string, found: bool, pathMax: nat)
    requires x != "" && |x| < pathMax
    ensures var ts := Expanded(x, Tokens(rest, found));
            ts != [] && (Spliced(x, rest, found, pathMax).Some? <==> |Join(ts)| < pathMax)
  {
    var whole := if !found then x else if x[|x| - 1] == '/' then x + rest else x + "/" + rest;
    assert Spliced(x, rest, found, |whole| + 1) == Some(whole);
    SplicedTokens(x, rest, found, |whole| + 1);
    JoinOfSplit(whole);
  }

  /** The two texts `resolved` can hold for a stack. */
  predicate ShowsStack(resolved: string, stack: seq<string>)
  {
    resolved == Render(stack) || resolved == RenderDir(stack)
  }

  lemma ShowsStackFacts(resolved: string, stack: seq<string>)
    requires ShowsStack(resolved, stack) && AllNames(stack)
    ensures Slashed(resolved) == RenderDir(stack) && Unslashed(resolved) == Render(stack)
  {
    if stack != [] {
      assert RenderDir(stack)[..|RenderDir(stack)| - 1] == Render(stack);
    }
  }

  lemma PopShown(stack: seq<string>)
    requires AllNames(stack)
    ensures (if |RenderDir(stack)| > 1 then StripLast(RenderDir(stack)) else RenderDir(stack)) == RenderDir(Pop(stack))
  {
    if stack != [] {
      var t := stack[|stack| - 1];
      assert IsName(t);
      StripLastPopsDir(RenderDir(Pop(stack)), t);
    }
  }

  /** A round of the loop and a step of the walk end alike, or go on alike, when the step
      fits; when it does not, the round is refused. */
  ghost predicate Matches(env: Env, round: Round, step: Step, fits: bool)
  {
    match round
    case Stop(o) => if fits then step.End? && o == Reported(step.w) else o == Refused(ENAMETOOLONG)
    case Go(r, l, more, links) =>
      && fits && step.Next? && AllNames(step.stack) && ShowsStack(r, step.stack)
      && step.tokens == Tokens(l, more) && links + step.budget == env.maxSymlinks + 1
  }

  lemma LinkRoundMatches(env: Env, stack: seq<string>, t: string, rest: string, found: bool, links: nat)
    requires env.Valid() && links <= env.maxSymlinks + 1 && AllNames(stack) && IsName(t)
    ensures var here, b := Render(stack + [t]), env.maxSymlinks + 1 - links;
            Matches(env, LinkRound(env, here, rest, found, links),
                    LinkWalk(env.Cut(), stack, here, Tokens(rest, found), b),
                    LinkFits(env.Cut(), here, Tokens(rest, found), b))
  {
    hide Render, RenderDir, StripLast, Expanded, Spliced, Split, Join;
    RootText();
    RenderPush(stack, t);
    StripLastPops(RenderDir(stack), t);
    var link := env.ReadLink(Render(stack + [t]));
    if link.Target? {
      assert env.readlink(Render(stack + [t])).text != "";
      SplicedFits(link.text, rest, found, env.pathMax);
      if Spliced(link.text, rest, found, env.pathMax).Some? {
        SplicedTokens(link.text, rest, found, env.pathMax);
      }
    }
  }

  /** The case of a name: both append it and look at what it is. */
  lemma NameRoundMatches(env: Env, stack: seq<string>, t: string, rest: string, found: bool, links: nat)
    requires env.Valid() && links <= env.maxSymlinks + 1 && AllNames(stack) && IsName(t)
    requires |RenderDir(stack)| < env.pathMax
    ensures var ts, b := Tokens(rest, found), env.maxSymlinks + 1 - links;
            Matches(env, TokenRound(env, RenderDir(stack), t, rest, found, links),
                    TokenWalk(env.Cut(), stack, t, ts, b),
                    StepFits(env.Cut(), stack, t, ts, b))
  {
    hide LinkRound, LinkWalk, Render, RenderDir, Tokens, StripLast, LinkFits;
    RenderPush(stack, t);
    var here := stack + [t];
    var full := Render(here);
    assert full == RenderDir(stack) + t;
    if |full| < env.pathMax {
      match env.lstat(full)
      case NoStat(e) =>
      case Symlink => LinkRoundMatches(env, stack, t, rest, found, links);
      case Directory => assert ShowsStack(full, here);
      case OtherFile => assert ShowsStack(full, here);
    }
  }

  lemma TokenRoundMatches(env: Env, stack: seq<string>, t: string, rest: string, found: bool, links: nat)
    requires env.Valid() && links <= env.maxSymlinks + 1 && AllNames(stack) && SlashFree(t)
    requires |RenderDir(stack)| < env.pathMax
    ensures var ts, b := Tokens(rest, found), env.maxSymlinks + 1 - links;
            Matches(env, TokenRound(env, RenderDir(stack), t, rest, found, links),
                    TokenWalk(env.Cut(), stack, t, ts, b),
                    StepFits(env.Cut(), stack, t, ts, b))
  {
    hide LinkFits, LinkRound, LinkWalk, RenderDir, Render, StripLast, Tokens;
    var d, ts, b := RenderDir(stack), Tokens(rest, found), env.maxSymlinks + 1 - links;
    assert ShowsStack(d, stack);
    if t == "" {
      assert env.lstat(d).Directory? ==> TokenWalk(env.Cut(), stack, t, ts, b) == Next(stack, ts, b);
    } else if t == "." {
      assert TokenWalk(env.Cut(), stack, t, ts, b) == Next(stack, ts, b);
    } else if t == ".." {
      PopShown(stack);
      assert ShowsStack(RenderDir(Pop(stack)), Pop(stack));
      assert TokenWalk(env.Cut(), stack, t, ts, b) == Next(Pop(stack), ts, b);
    } else {
      NameRoundMatches(env, stack, t, rest, found, links);
    }
  }

  /** A whole round against the step for the first token, links cut. */
  lemma RoundMatches(env: Env, resolved: string, left: string, links: nat, stack: seq<string>)
    requires env.Valid() && links <= env.maxSymlinks + 1
    requires ShowsStack(resolved, stack) && AllNames(stack) && |resolved| < env.pathMax
    ensures var t, ts, b := Split(left)[0], Split(left)[1..], env.maxSymlinks + 1 - links;
            Matches(env, OneRound(env, resolved, left, links), TokenWalk(env.Cut(), stack, t, ts, b),
                    StepFits(env.Cut(), stack, t, ts, b))
  {
    hide LinkFits, TokenRound, TokenWalk;
    var k := FirstSlash(left);
    ShowsStackFacts(resolved, stack);
    TokensOfRest(left);
    assert Split(left)[1..] == Tokens(Rest(left), k < |left|);
    if |RenderDir(stack)| < env.pathMax {
      TokenRoundMatches(env, stack, left[..k], Rest(left), k < |left|, links);
    }
  }

  /** The buffer-level loop walks over the file system with cut links: on the texts of any
      stack and tokens it reports what that walk finds if every step fits, and is refused for
      the length of a name otherwise. */
  lemma {:induction false} LoopIsWalk(env: Env, resolved: string, left: string, more: bool, links: nat,
                                      stack: seq<string>)
    requires env.Valid() && links <= env.maxSymlinks + 1
    requires ShowsStack(resolved, stack) && AllNames(stack) && |resolved| < env.pathMax
    ensures var ts, b := Tokens(left, more), env.maxSymlinks + 1 - links;
            Loop(env, resolved, left, more, links) ==
            if WalkFits(env.Cut(), stack, ts, b) then Reported(Walk(env.Cut(), stack, ts, b)) else Refused(ENAMETOOLONG)
    decreases env.maxSymlinks + 1 - links, if more then |left| + 1 else 0
  {
    hide OneRound, TokenWalk, Split, RenderDir, Render, StepFits;
    if !more {
      ShowsStackFacts(resolved, stack);
    } else {
      RoundMatches(env, resolved, left, links, stack);
      RoundFits(env, resolved, left, links);
      match OneRound(env, resolved, left, links)
      case Stop(_) =>
      case Go(r, l, m, n) =>
        var step := TokenWalk(env.Cut(), stack, Split(left)[0], Split(left)[1..], env.maxSymlinks + 1 - links);
        LoopIsWalk(env, r, l, m, n, step.stack);
    }
  }

  // ------------------------------------------------------------------ the whole call

  /** A path that is walked at all: neither empty nor "/", and with a directory to start in. */
  predicate Walks(env: Env, path: string)
  {
    path != "" && path != "/" && (path[0] == '/' || env.cwd.CwdAt?)
  }

  /** What a path resolves to: an absolute path is walked from the root, a relative one from
      the working directory. */
  function Resolution(env: Env, path: string): Outcome
  {
    if path == "" then Refused(ENOENT)
    else if path == "/" then Resolved("/")
    else if path[0] != '/' && env.cwd.NoCwd? then Failed(env.cwd.errno, ".")
    else Reported(Walk(env, StartStack(env, path), StartTokens(path), env.maxSymlinks + 1))
  }

  /** The path and every step of its walk are shorter than `PATH_MAX`. */
  predicate PathFits(env: Env, path: string)
  {
    Walks(env, path) ==>
      && |Join(StartTokens(path))| < env.pathMax
      && WalkFits(env, StartStack(env, path), StartTokens(path), env.maxSymlinks + 1)
  }

  /** For every path, `realpath` reports what the path resolves to in the file system with cut
      links if path and steps fit there, and ENAMETOOLONG otherwise. */
  lemma RealpathIsCutWalk(env: Env, path: string)
    requires env.Valid()
    ensures Spec(env, path) == if PathFits(env.Cut(), path) then Resolution(env.Cut(), path) else Refused(ENAMETOOLONG)
  {
    hide Walk, Loop, Split, RenderDir, Join, WalkFits;
    RootText();
    if Walks(env, path) {
      var text := if path[0] == '/' then path[1..] else path;
      JoinOfSplit(text);
      LoopIsWalk(env, Render(StartStack(env, path)), text, true, 0, StartStack(env, path));
    }
  }

  function StartStack(env: Env, path: string): seq<string>
    requires path != "" && (path[0] == '/' || env.cwd.CwdAt?)
  {
    if path[0] == '/' then [] else env.cwd.names
  }

  function StartTokens(path: string): seq<string>
    requires path != ""
  {
    Split(if path[0] == '/' then path[1..] else path)
  }

  /** A larger budget changes nothing about a step but the budget that is left. */
  lemma StepUnderBudget(env: Env, stack: seq<string>, t: string, rest: seq<string>, b: nat, more: nat)
    requires b <= more
    ensures var s, s' := TokenWalk(env, stack, t, rest, b), TokenWalk(env, stack, t, rest, more);
            if s.Next? then s'.Next? && s'.stack == s.stack && s'.tokens == s.tokens && s'.budget - s.budget == more - b
            else s' == s || s.w.OutOfLinks?
  {
    hide Render, RenderDir, Expanded;
  }

  /** The link budget only ever cuts a walk short: any walk that ends by itself ends the
      same way under every larger budget. */
  lemma {:induction false} BudgetOnlyCuts(env: Env, stack: seq<string>, tokens: seq<string>, b: nat, more: nat)
    requires b <= more && !Walk(env, stack, tokens, b).OutOfLinks?
    ensures Walk(env, stack, tokens, more) == Walk(env, stack, tokens, b)
    decreases b, |tokens|
  {
    hide TokenWalk;
    if tokens != [] {
      StepUnderBudget(env, stack, tokens[0], tokens[1..], b, more);
      var s := TokenWalk(env, stack, tokens[0], tokens[1..], b);
      var s' := TokenWalk(env, stack, tokens[0], tokens[1..], more);
      if s.Next? {
        BudgetOnlyCuts(env, s.stack, s.tokens, s.budget, s'.budget);
      }
    }
  }

  /** Every component of the stack exists and none of the prefixes is a symbolic link. */
  ghost predicate Real(env: Env, stack: seq<string>)
  {
    forall k :: 1 <= k <= |stack| ==>
      env.lstat(Render(stack[..k])).Directory? || env.lstat(Render(stack[..k])).OtherFile?
  }

  lemma RealPush(env: Env, stack: seq<string>, t: string)
    requires Real(env, stack)
    requires env.lstat(Render(stack + [t])).Directory? || env.lstat(Render(stack + [t])).OtherFile?
    ensures Real(env, stack + [t])
  {
    var here := stack + [t];
    forall k | 1 <= k <= |here|
      ensures env.lstat(Render(here[..k])).Directory? || env.lstat(Render(here[..k])).OtherFile?
    {
      if k <= |stack| { assert here[..k] == stack[..k]; } else { assert here[..k] == here; }
    }
  }

  /** Stepping keeps stacks canonical and free of links, and tokens free of slashes. */
  lemma StepKeepsReal(env: Env, stack: seq<string>, t: string, rest: seq<string>, budget: nat)
    requires AllNames(stack) && SlashFree(t) && AllSlashFree(rest)
    requires TokenWalk(env, stack, t, rest, budget).Next?
    ensures var s := TokenWalk(env, stack, t, rest, budget);
            AllNames(s.stack) && AllSlashFree(s.tokens) && (Real(env, stack) ==> Real(env, s.stack))
  {
    var s := TokenWalk(env, stack, t, rest, budget);
    if IsName(t) {
      if env.lstat(Render(stack + [t])).Symlink? {
        SplitSlashFree(env.readlink(Render(stack + [t])).text);
      } else if Real(env, stack) {
        RealPush(env, stack, t);
      }
    } else if t == ".." {
      forall k | 1 <= k <= |Pop(stack)|
        ensures Pop(stack)[..k] == stack[..k]
      {
      }
    }
  }

  /** A walk that starts canonical and link-free ends canonical and link-free. */
  lemma {:induction false} WalkEndsReal(env: Env, stack: seq<string>, tokens: seq<string>, budget: nat)
    requires AllNames(stack) && AllSlashFree(tokens)
    requires Walk(env, stack, tokens, budget).At?
    ensures AllNames(Walk(env, stack, tokens, budget).stack)
    ensures Real(env, stack) ==> Real(env, Walk(env, stack, tokens, budget).stack)
    decreases budget, |tokens|
  {
    hide TokenWalk, Real, Render, RenderDir;
    if tokens != [] {
      var s := TokenWalk(env, stack, tokens[0], tokens[1..], budget);
      StepKeepsReal(env, stack, tokens[0], tokens[1..], budget);
      WalkEndsReal(env, s.stack, s.tokens, s.budget);
    }
  }

  /** Text-level canonical form: absolute, and either the root or slash-separated names. */
  ghost predicate Canonical(s: string)
  {
    s == "/" || (s != "" && s[0] == '/' && AllNames(Split(s[1..])))
  }

  lemma RenderCanonical(stack: seq<string>)
    requires AllNames(stack)
    ensures Canonical(Render(stack))
    ensures stack != [] ==> Split(Render(stack)[1..]) == stack
  {
    if stack != [] {
      RenderIsJoin(stack);
      assert Render(stack)[1..] == Join(stack);
      SplitOfJoin(stack);
    }
  }

  lemma RootIsReal(env: Env)
    ensures Render([]) == "/" && Real(env, [])
  {
  }

  lemma RealOfCut(env: Env, stack: seq<string>)
    ensures Real(env.Cut(), stack) == Real(env, stack)
  {
  }

  /** What a successful `realpath` returns: the canonical text of a stack with no symbolic
      link in it (as far as the working directory has none), within the length limit. */
  lemma ResultIsReal(env: Env, path: string) returns (stack: seq<string>)
    requires env.Valid() && Spec(env, path).Resolved?
    ensures AllNames(stack) && Spec(env, path).path == Render(stack) && Canonical(Render(stack))
    ensures path[0] == '/' || Real(env, env.cwd.names) ==> Real(env, stack)
    ensures |Render(stack)| < env.pathMax
  {
    hide Walk, Loop, Real, Split, Canonical, Render, WalkFits, Join;
    RootIsReal(env);
    if path == "/" {
      stack := [];
      RenderCanonical(stack);
    } else {
      RealpathIsCutWalk(env, path);
      var start, tokens := StartStack(env, path), StartTokens(path);
      SplitSlashFree(if path[0] == '/' then path[1..] else path);
      stack := Walk(env.Cut(), start, tokens, env.maxSymlinks + 1).stack;
      WalkEndsReal(env.Cut(), start, tokens, env.maxSymlinks + 1);
      RealOfCut(env, start);
      RealOfCut(env, stack);
      RenderCanonical(stack);
      LoopFits(env, Render(start), if path[0] == '/' then path[1..] else path, true, 0);
    }
  }

  lemma RoundFits(env: Env, resolved: string, left: string, links: nat)
    requires env.pathMax >= 2 && resolved != "" && resolved[0] == '/' && |resolved| < env.pathMax
    ensures match OneRound(env, resolved, left, links)
            case Stop(o) => !o.Resolved?
            case Go(r, _, _, _) => |r| < env.pathMax
  {
    hide Spliced, LastSlash, FirstSlash;
  }

  lemma {:induction false} LoopFits(env: Env, resolved: string, left: string, more: bool, links: nat)
    requires env.pathMax >= 2 && resolved != "" && resolved[0] == '/' && |resolved| < env.pathMax
    requires links <= env.maxSymlinks + 1
    requires Loop(env, resolved, left, more, links).Resolved?
    ensures |Loop(env, resolved, left, more, links).path| < env.pathMax
    decreases env.maxSymlinks + 1 - links, if more then |left| + 1 else 0
  {
    hide OneRound;
    if more {
      var r := OneRound(env, resolved, left, links);
      RoundFits(env, resolved, left, links);
      LoopFits(env, r.resolved, r.left, r.more, r.links);
    }
  }

  lemma {:induction false} RenderGrows(done: seq<string>, rest: seq<string>)
    requires rest != []
    ensures |RenderDir(done)| + |rest[0]| <= |Render(done + rest)|
    decreases |rest|
  {
    var n := |rest| - 1;
    var below := done + rest[..n];
    assert (done + rest)[..|done + rest| - 1] == below;
    if n == 0 {
      assert below == done;
    } else {
      RenderGrows(done, rest[..n]);
    }
  }

  lemma JoinHead(ts: seq<string>)
    requires ts != [] && AllNames(ts)
    ensures var s := Join(ts); FirstSlash(s) == |ts[0]| && s[..|ts[0]|] == ts[0]
    ensures |ts| > 1 ==> |ts[0]| < |Join(ts)| && Rest(Join(ts)) == Join(ts[1..])
    ensures |ts| == 1 ==> Join(ts) == ts[0]
  {
    var s := Join(ts);
    assert IsName(ts[0]);
    assert s[..|ts[0]|] == ts[0];
    FirstSlashUnique(s, |ts[0]|);
    if |ts| > 1 {
      assert s[|ts[0]| + 1..] == Join(ts[1..]);
    }
  }

  /** A round that reads the next name of a real path appends it. */
  lemma RoundOnReal(env: Env, done: seq<string>, rest: seq<string>)
    requires env.Valid() && AllNames(done) && AllNames(rest) && Real(env, done + rest) && rest != []
    requires |Render(done + rest)| < env.pathMax
    ensures OneRound(env, Render(done), Join(rest), 0)
         == Go(Render(done + [rest[0]]), Rest(Join(rest)), |rest| > 1, 0)
  {
    hide RenderDir, Render, Join, FirstSlash;
    var t := rest[0];
    assert IsName(t);
    JoinHead(rest);
    RenderGrows(done, rest);
    RenderPush(done, t);
    ShowsStackFacts(Render(done), done);
    var full := Render(done + [t]);
    assert full == RenderDir(done) + t;
    assert (done + rest)[..|done| + 1] == done + [t];
    assert TokenRound(env, RenderDir(done), t, Rest(Join(rest)), |rest| > 1, 0)
        == Go(full, Rest(Join(rest)), |rest| > 1, 0);
  }

  /** Resolving the rest of a real path from its own prefix adds exactly the rest. */
  lemma {:induction false} LoopOnReal(env: Env, names: seq<string>, k: nat)
    requires env.Valid() && AllNames(names) && Real(env, names) && k < |names|
    requires |Render(names)| < env.pathMax
    ensures Loop(env, Render(names[..k]), Join(names[k..]), true, 0) == Resolved(Render(names))
    decreases |names| - k
  {
    hide OneRound, Render, RenderDir, Join, Real;
    var done, rest := names[..k], names[k..];
    assert done + rest == names;
    RoundOnReal(env, done, rest);
    var here := names[..k + 1];
    assert here == done + [rest[0]];
    if |rest| > 1 {
      assert names[k + 1..] == rest[1..];
      JoinHead(rest);
      LoopOnReal(env, names, k + 1);
    } else {
      assert here == names;
      ShowsStackFacts(Render(here), here);
    }
  }

  /** A link that names itself: `realpath` follows it until the budget is spent and
      reports ELOOP with the link's path, whatever the budget. */
  lemma {:induction false} SelfLinkLoops(env: Env, name: string, budget: nat)
    requires IsName(name)
    requires env.lstat("/" + name) == Symlink && env.readlink("/" + name) == Target(name)
    ensures Walk(env, [], [name], budget) == OutOfLinks("/" + name)
  {
    assert [] + [name] == [name] && Render([name]) == "/" + name;
    assert Walk(env, [], [name], budget)
        == if budget == 0 then OutOfLinks("/" + name) else Walk(env, [], Expanded(name, []), budget - 1) by {
      WalkUnfolds(env, [], name, [], budget);
      assert [name] + [] == [name];
    }
    FirstSlashUnique(name, |name|);
    if budget > 0 {
      SelfLinkLoops(env, name, budget - 1);
    }
  }

  /** `realpath` of its own result is that result. */
  lemma RealpathIdempotent(env: Env, path: string)
    requires env.Valid() && Spec(env, path).Resolved?
    requires path[0] == '/' || Real(env, env.cwd.names)
    ensures Spec(env, Spec(env, path).path) == Spec(env, path)
  {
    var stack := ResultIsReal(env, path);
    if stack != [] {
      RenderIsJoin(stack);
      assert Render(stack)[1..] == Join(stack);
      assert stack[..0] == [] && stack[0..] == stack;
      LoopOnReal(env, stack, 0);
    }
  }
}
