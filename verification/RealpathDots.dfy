/** What `realpath` does not check: "." and ".." behind a component that is no directory. */
module RealpathDots {
  import opened Basics
  import opened PathText
  import opened Realpath
  import opened RealpathMeaning
  import opened RealpathLimits

  /** "." and ".." are entries of directories. */
  predicate BadDot(env: Env, stack: seq<string>, t: string)
  {
    (t == "." || t == "..") && !env.lstat(RenderDir(stack)).Directory?
  }

  /** One token of strict pathname resolution, which looks for "." and ".." in a directory. */
  function StrictStep(env: Env, stack: seq<string>, t: string, rest: seq<string>, budget: nat): (s: Step)
    ensures s.Next? ==> s.budget < budget || (s.budget == budget && s.tokens == rest)
    ensures s.End? ==> !s.w.At?
  {
    if BadDot(env, stack, t) then
      match env.lstat(RenderDir(stack))
      case NoStat(e) => End(Broke(e, RenderDir(stack)))
      case _ => End(Broke(ENOTDIR, RenderDir(stack)))
    else TokenWalk(env, stack, t, rest, budget)
  }

  function StrictWalk(env: Env, stack: seq<string>, tokens: seq<string>, budget: nat): (w: Walked)
    decreases budget, |tokens|
  {
    if tokens == [] then At(stack) else
    match StrictStep(env, stack, tokens[0], tokens[1..], budget)
    case End(w) => w
    case Next(s, ts, b) => StrictWalk(env, s, ts, b)
  }

  /** Every "." and ".." of a walk is read in a directory. */
  predicate DotsInDirs(env: Env, stack: seq<string>, tokens: seq<string>, budget: nat)
    decreases budget, |tokens|
  {
    tokens == [] ||
    (&& !BadDot(env, stack, tokens[0])
     && var s := TokenWalk(env, stack, tokens[0], tokens[1..], budget);
        (s.Next? ==> DotsInDirs(env, s.stack, s.tokens, s.budget)))
  }

  /** The walk that does not look is the strict one if every dot is in a directory; and where it
      gets to the end, only then. */
  lemma {:induction false} WalkIsStrictIff(env: Env, stack: seq<string>, tokens: seq<string>, budget: nat)
    ensures DotsInDirs(env, stack, tokens, budget) ==>
      StrictWalk(env, stack, tokens, budget) == Walk(env, stack, tokens, budget)
    ensures Walk(env, stack, tokens, budget).At? && !DotsInDirs(env, stack, tokens, budget) ==>
      !StrictWalk(env, stack, tokens, budget).At?
    decreases budget, |tokens|
  {
    hide TokenWalk, RenderDir;
    if tokens != [] && !BadDot(env, stack, tokens[0]) {
      var s := TokenWalk(env, stack, tokens[0], tokens[1..], budget);
      if s.Next? { WalkIsStrictIff(env, s.stack, s.tokens, s.budget); }
    }
  }

  /** What a path resolves to when "." and ".." are looked for in directories. */
  function StrictResolution(env: Env, path: string): Outcome
  {
    if Walks(env, path) then
      Reported(StrictWalk(env, StartStack(env, path), StartTokens(path), env.maxSymlinks + 1))
    else Resolution(env, path)
  }

  predicate PathDots(env: Env, path: string)
  {
    Walks(env, path) ==> DotsInDirs(env, StartStack(env, path), StartTokens(path), env.maxSymlinks + 1)
  }

  /** When everything fits, a success of `realpath` is what the path strictly resolves to if and
      only if every "." and ".." on the way was read in a directory; and in that case a failure
      is as well. */
  lemma RealpathIsStrictIff(env: Env, path: string)
    requires env.Valid() && PathFits(env, path)
    ensures PathDots(env, path) ==> Spec(env, path) == StrictResolution(env, path)
    ensures Spec(env, path).Resolved? ==> (Spec(env, path) == StrictResolution(env, path) <==> PathDots(env, path))
  {
    hide Walk, WalkFits, StrictWalk, DotsInDirs, Join, Spec, Split;
    RealpathIsWalk(env, path);
    if Walks(env, path) {
      WalkIsStrictIff(env, StartStack(env, path), StartTokens(path), env.maxSymlinks + 1);
    }
  }

  /** What is found at a directory text: an empty token demands a directory. */
  function AtSlash(env: Env, names: seq<string>): Walked
  {
    match env.lstat(RenderDir(names))
    case Directory => At(names)
    case NoStat(e) => Broke(e, RenderDir(names))
    case _ => Broke(ENOTDIR, RenderDir(names))
  }

  lemma OneName(env: Env, stack: seq<string>, t: string, rest: seq<string>, b: nat)
    requires IsName(t) && env.lstat(Render(stack + [t])) in {Directory, OtherFile}
    ensures Walk(env, stack, [t] + rest, b) == Walk(env, stack + [t], rest, b)
    ensures |RenderDir(stack)| < env.pathMax && |Render(stack + [t])| < env.pathMax ==>
      WalkFits(env, stack, [t] + rest, b) == WalkFits(env, stack + [t], rest, b)
  {
    hide Render, RenderDir;
    assert ([t] + rest)[1..] == rest;
  }

  lemma OneSlash(env: Env, stack: seq<string>, b: nat)
    ensures Walk(env, stack, [""], b) == AtSlash(env, stack)
    ensures |RenderDir(stack)| < env.pathMax ==> WalkFits(env, stack, [""], b)
  {
    hide RenderDir;
    assert [""][1..] == [];
  }

  lemma {:induction false} WalkOnReal(env: Env, names: seq<string>, k: nat, b: nat)
    requires AllNames(names) && Real(env, names) && k <= |names| && |RenderDir(names)| < env.pathMax
    ensures Walk(env, names[..k], names[k..] + [""], b) == AtSlash(env, names)
    ensures WalkFits(env, names[..k], names[k..] + [""], b)
    decreases |names| - k
  {
    hide Walk, WalkFits, RenderDir, Render;
    if k == |names| {
      assert names[..k] == names && names[k..] + [""] == [""];
      OneSlash(env, names, b);
    } else {
      assert names[k..] + [""] == [names[k]] + (names[k + 1..] + [""]) && names[..k] + [names[k]] == names[..k + 1];
      PrefixIsShorter(names, k);
      OneName(env, names[..k], names[k], names[k + 1..] + [""], b);
      WalkOnReal(env, names, k + 1, b);
    }
  }

  lemma {:induction false} PrefixIsShorter(names: seq<string>, k: nat)
    requires k < |names|
    ensures |RenderDir(names[..k])| <= |Render(names[..k + 1])| <= |RenderDir(names)|
    decreases |names|
  {
    var n := |names| - 1;
    if k < n {
      PrefixIsShorter(names[..n], k);
      assert names[..n][..k] == names[..k] && names[..n][..k + 1] == names[..k + 1];
    } else {
      assert names[..k + 1] == names;
    }
  }

  /** A real path with a slash behind it: `realpath` returns it if it is a directory, and
      fails with ENOTDIR if it is a file. */
  lemma TrailingSlash(env: Env, names: seq<string>)
    requires env.Valid() && names != [] && AllNames(names) && Real(env, names) && |RenderDir(names)| < env.pathMax
    ensures Spec(env, RenderDir(names)) == match env.lstat(RenderDir(names))
                                           case Directory => Resolved(Render(names))
                                           case NoStat(e) => Failed(e, RenderDir(names))
                                           case _ => Failed(ENOTDIR, RenderDir(names))
  {
    hide Walk, WalkFits, Spec, Split, Real, AllNames, RenderDir, Render, Join, StartTokens;
    var path, b := RenderDir(names), env.maxSymlinks + 1;
    SlashTokens(names);
    WalkOnReal(env, names, 0, b);
    assert names[..0] == [] && names[0..] == names;
    assert StartStack(env, path) == [] && Walks(env, path);
    assert PathFits(env, path) && Resolution(env, path) == Reported(AtSlash(env, names));
    RealpathIsWalk(env, path);
  }

  lemma SlashTokens(names: seq<string>)
    requires names != [] && AllNames(names)
    ensures var path := RenderDir(names);
            path != "/" && StartTokens(path) == names + [""] && |Join(StartTokens(path))| < |path|
  {
    hide Split, SlashFree;
    RenderIsJoin(names);
    var text := Join(names);
    assert RenderDir(names) == Render(names) + "/" && RenderDir(names)[1..] == text + "/" + "";
    assert Split(text) == names by { SplitOfNames(names); }
    SplitAppend(text, "");
    EmptyTokens();
    JoinOfSplit(text + "/" + "");
  }

  lemma SplitOfNames(names: seq<string>)
    requires names != [] && AllNames(names)
    ensures Split(Join(names)) == names
  {
    SplitOfJoin(names);
  }

  lemma EmptyTokens()
    ensures Split("") == [""]
  {
  }

  /** A file "/f" and nothing else. */
  const FILE: Env := Env(
    (p: string) => if p == "/f" then OtherFile else if p == "/" then Directory
                   else if p == "/f/" then NoStat(ENOTDIR) else NoStat(ENOENT),
    (p: string) => NoLink(EINVAL), CwdAt([]), 16, 8)

  lemma FileTokens()
    ensures StartTokens("/f/..") == ["f", ".."]
    ensures Render(["f"]) == "/f" && RenderDir(["f"]) == "/f/" && RenderDir([]) == "/"
    ensures Join(["f", ".."]) == "f/.." && FILE.Valid()
  {
    assert "/f/.."[1..] == "f/..";
    FirstSlashUnique("f/..", 1);
    FirstSlashUnique("..", 2);
    assert "f/.."[..1] == "f" && "f/.."[2..] == "..";
  }

  /** `realpath` of "/f/.." succeeds with "/", although "/f" is a file. */
  lemma FileDotDot()
    ensures FILE.Valid() && PathFits(FILE, "/f/..")
    ensures Spec(FILE, "/f/..") == Resolved("/")
    ensures StrictResolution(FILE, "/f/..") == Failed(ENOTDIR, "/f/")
  {
    FileTokens();
    hide Spec, Split, Render, RenderDir, Join;
    assert [] + ["f"] == ["f"];
    var up, done := ["f", ".."], [".."];
    assert up[1..] == done && done[1..] == [];
    assert TokenWalk(FILE, [], "f", done, 9) == Next(["f"], done, 9);
    assert TokenWalk(FILE, ["f"], "..", [], 9) == Next([], [], 9);
    assert WalkFits(FILE, [], [], 9) && WalkFits(FILE, ["f"], done, 9) && WalkFits(FILE, [], up, 9);
    assert Walk(FILE, ["f"], done, 9) == At([]);
    assert StrictWalk(FILE, ["f"], done, 9) == Broke(ENOTDIR, "/f/");
    RootText();
    RealpathIsWalk(FILE, "/f/..");
  }
}
