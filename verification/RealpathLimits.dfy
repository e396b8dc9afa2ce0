/** What the limits of `realpath` do to pathname resolution: when it follows the text of a
    link that `readlink` has cut off. */
module RealpathLimits {
  import opened Basics
  import opened CStrings
  import opened PathText
  import opened Realpath
  import opened RealpathMeaning

  // ------------------------------------------------------------------ cut links

  /** The token names a link that resolution follows. */
  predicate Follows(env: Env, stack: seq<string>, t: string, budget: nat)
  {
    && t != "" && t != "." && t != ".." && budget > 0
    && env.lstat(Render(stack + [t])).Symlink? && env.readlink(Render(stack + [t])).Target?
  }

  predicate StepWhole(env: Env, stack: seq<string>, t: string, budget: nat)
  {
    Follows(env, stack, t, budget) ==> |env.readlink(Render(stack + [t])).text| < env.pathMax
  }

  /** Every link that is followed, up to the first step that the code refuses, has a target
      shorter than `PATH_MAX`. */
  predicate LinksWhole(env: Env, stack: seq<string>, tokens: seq<string>, budget: nat)
    decreases budget, |tokens|
  {
    tokens == [] ||
    (StepFits(env.Cut(), stack, tokens[0], tokens[1..], budget) ==>
       && StepWhole(env, stack, tokens[0], budget)
       && var s := TokenWalk(env, stack, tokens[0], tokens[1..], budget);
          (s.Next? ==> LinksWhole(env, s.stack, s.tokens, s.budget)))
  }

  lemma {:induction false} JoinAppend(a: seq<string>, b: seq<string>)
    requires a != [] && b != []
    ensures Join(a + b) == Join(a) + "/" + Join(b)
  {
    hide Join;
    var t, rest := a[0], a[1..];
    assert a == [t] + rest && a + b == [t] + (rest + b);
    JoinCons(t, rest);
    JoinCons(t, rest + b);
    if rest == [] {
      assert a == [t] && rest + b == b;
    } else {
      JoinAppend(rest, b);
    }
  }

  /** The text of the expanded tokens is no shorter than the link's. */
  lemma ExpandedIsLonger(x: string, rest: seq<string>)
    requires x != ""
    ensures Expanded(x, rest) != [] && |Join(Expanded(x, rest))| >= |x|
  {
    hide Join, Split;
    JoinOfSplit(x);
    if rest != [] {
      if x[|x| - 1] == '/' {
        var y := x[..|x| - 1];
        assert x == y + "/" + "";
        SplitAppend(y, "");
        assert Split("") == [""] by { SplitHere(""); }
        assert (Split(y) + [""])[..|Split(y)|] == Split(y);
        JoinAppend(Split(y), rest);
        JoinOfSplit(y);
      } else {
        JoinAppend(Split(x), rest);
      }
    }
  }

  /** A link of the cut file system against the link itself. */
  lemma LinkOfCut(env: Env, stack: seq<string>, here: string, rest: seq<string>, b: nat)
    requires env.Valid() && env.readlink(here).Target? && b > 0
    ensures var whole := |env.readlink(here).text| < env.pathMax;
            && (whole ==> LinkWalk(env.Cut(), stack, here, rest, b) == LinkWalk(env, stack, here, rest, b))
            && (whole ==> LinkFits(env.Cut(), here, rest, b) == LinkFits(env, here, rest, b))
            && (!whole ==> !LinkFits(env, here, rest, b))
    ensures var s, s' := LinkWalk(env.Cut(), stack, here, rest, b), LinkWalk(env, stack, here, rest, b);
            && s.Next? && s'.Next? && s.stack == s'.stack && s.budget == s'.budget
            && (LinkFits(env.Cut(), here, rest, b) ==>
                  (s.tokens == s'.tokens <==> |env.readlink(here).text| < env.pathMax))
  {
    hide Expanded, Join;
    ExpandedIsLonger(env.readlink(here).text, rest);
  }

  /** A step over cut links against the step over whole ones. */
  lemma StepOfCut(env: Env, stack: seq<string>, t: string, rest: seq<string>, b: nat)
    requires env.Valid()
    ensures StepFits(env, stack, t, rest, b) <==> StepFits(env.Cut(), stack, t, rest, b) && StepWhole(env, stack, t, b)
    ensures StepFits(env, stack, t, rest, b) ==>
      TokenWalk(env.Cut(), stack, t, rest, b) == TokenWalk(env, stack, t, rest, b)
    ensures StepFits(env.Cut(), stack, t, rest, b) && !StepWhole(env, stack, t, b) ==>
      var s, s' := TokenWalk(env.Cut(), stack, t, rest, b), TokenWalk(env, stack, t, rest, b);
      s.Next? && s'.Next? && s.tokens != s'.tokens
  {
    hide Render, RenderDir, LinkWalk, LinkFits;
    var here := Render(stack + [t]);
    if t != "" && t != "." && t != ".." && env.lstat(here).Symlink? {
      if b > 0 && env.readlink(here).Target? {
        LinkOfCut(env, stack, here, rest, b);
      } else {
        NoLinkOfCut(env, stack, here, rest, b);
      }
    }
  }

  lemma NoLinkOfCut(env: Env, stack: seq<string>, here: string, rest: seq<string>, b: nat)
    requires env.Valid() && !(b > 0 && env.readlink(here).Target?)
    ensures LinkWalk(env.Cut(), stack, here, rest, b) == LinkWalk(env, stack, here, rest, b)
    ensures LinkFits(env.Cut(), here, rest, b) && LinkFits(env, here, rest, b)
  {
    assert env.Cut().readlink(here) == env.ReadLink(here);
  }

  /** Without a cut the two file systems resolve alike; and a walk that fits has no cut. */
  lemma {:induction false} WalkOfCut(env: Env, stack: seq<string>, tokens: seq<string>, b: nat)
    requires env.Valid()
    ensures LinksWhole(env, stack, tokens, b) ==>
      WalkFits(env.Cut(), stack, tokens, b) == WalkFits(env, stack, tokens, b)
    ensures WalkFits(env, stack, tokens, b) ==> LinksWhole(env, stack, tokens, b)
    ensures WalkFits(env, stack, tokens, b) ==> Walk(env.Cut(), stack, tokens, b) == Walk(env, stack, tokens, b)
    decreases b, |tokens|
  {
    hide StepFits, StepWhole, TokenWalk;
    if tokens != [] {
      StepOfCut(env, stack, tokens[0], tokens[1..], b);
      var s := TokenWalk(env, stack, tokens[0], tokens[1..], b);
      if s.Next? { WalkOfCut(env, s.stack, s.tokens, s.budget); }
    }
  }

  /** Every link followed for a path is read whole. */
  predicate PathWhole(env: Env, path: string)
  {
    Walks(env, path) && |Join(StartTokens(path))| < env.pathMax ==>
      LinksWhole(env, StartStack(env, path), StartTokens(path), env.maxSymlinks + 1)
  }

  /** `realpath` returns exactly what the path resolves to when path and steps fit; when they
      do not, and no link was cut, it fails with ENAMETOOLONG. So it diverges from resolution
      in no other way than ENAMETOOLONG unless it has followed a cut link. */
  lemma RealpathIsWalk(env: Env, path: string)
    requires env.Valid()
    ensures PathFits(env, path) ==> PathWhole(env, path) && Spec(env, path) == Resolution(env, path)
    ensures PathWhole(env, path) && !PathFits(env, path) ==> Spec(env, path) == Refused(ENAMETOOLONG)
  {
    hide Walk, WalkFits, LinksWhole, Join, Spec;
    RealpathIsCutWalk(env, path);
    if Walks(env, path) {
      WalkOfCut(env, StartStack(env, path), StartTokens(path), env.maxSymlinks + 1);
    }
  }

  /** What is behind the cut never matters: two file systems that agree up to it give the
      same result. */
  lemma BehindTheCut(env: Env, other: Env, path: string)
    requires env.Valid() && other.Valid() && env == other.(readlink := env.readlink)
    requires forall p :: env.ReadLink(p) == other.ReadLink(p)
    ensures Spec(env, path) == Spec(other, path)
  {
    hide Loop, Render;
    if path != "" && (path[0] == '/' || env.cwd.CwdAt?) && path != "/" {
      var start := if path[0] == '/' then "/" else Render(env.cwd.names);
      LoopsAgree(env, other, start, if path[0] == '/' then path[1..] else path, true, 0);
    }
  }

  lemma {:induction false} LoopsAgree(env: Env, other: Env, resolved: string, left: string, more: bool, links: nat)
    requires env.pathMax >= 2 && env == other.(readlink := env.readlink)
    requires forall p :: env.ReadLink(p) == other.ReadLink(p)
    requires resolved != "" && resolved[0] == '/' && links <= env.maxSymlinks + 1
    ensures Loop(env, resolved, left, more, links) == Loop(other, resolved, left, more, links)
    decreases env.maxSymlinks + 1 - links, if more then |left| + 1 else 0
  {
    hide FirstSlash, StripLast, Spliced;
    if more {
      var round := OneRound(env, resolved, left, links);
      assert round == OneRound(other, resolved, left, links);
      if round.Go? { LoopsAgree(env, other, round.resolved, round.left, round.more, round.links); }
    }
  }

  // ------------------------------------------------------------------ what is read

  /** The unread tokens at every round of the loop. */
  function LoopReads(env: Env, resolved: string, left: string, more: bool, links: nat): (r: seq<seq<string>>)
    requires env.pathMax >= 2 && resolved != "" && resolved[0] == '/'
    requires links <= env.maxSymlinks + 1
    ensures r != [] && r[0] == Tokens(left, more)
    decreases env.maxSymlinks + 1 - links, if more then |left| + 1 else 0
  {
    [Tokens(left, more)] +
    if !more then [] else
    match OneRound(env, resolved, left, links)
    case Stop(_) => []
    case Go(r, l, m, n) => LoopReads(env, r, l, m, n)
  }

  /** The unread tokens at every step of pathname resolution. */
  function WalkReads(env: Env, stack: seq<string>, tokens: seq<string>, budget: nat): (r: seq<seq<string>>)
    ensures r != [] && r[0] == tokens
    decreases budget, |tokens|
  {
    [tokens] +
    if tokens == [] then [] else
    match TokenWalk(env, stack, tokens[0], tokens[1..], budget)
    case End(_) => []
    case Next(s, ts, b) => WalkReads(env, s, ts, b)
  }

  predicate IsPrefix<T(==)>(a: seq<T>, b: seq<T>)
  {
    a <= b
  }

  /** Whether one run of reads is a prefix of another is decided behind the first read, and by
      the second when that differs. */
  lemma PrefixCons<T>(x: T, a: seq<T>, b: seq<T>)
    ensures IsPrefix([x] + a, [x] + b) <==> IsPrefix(a, b)
    ensures a != [] && b != [] && a[0] != b[0] ==> !IsPrefix(a, b)
    ensures IsPrefix([x] + [], [x] + b)
  {
    assert ([x] + a)[1..] == a && ([x] + b)[1..] == b;
    if a <= b { assert b == a + b[|a|..]; }
  }

  lemma LoopReadsUnfold(env: Env, resolved: string, left: string, links: nat)
    requires env.pathMax >= 2 && resolved != "" && resolved[0] == '/' && links <= env.maxSymlinks + 1
    ensures var o := OneRound(env, resolved, left, links);
            LoopReads(env, resolved, left, true, links) ==
            [Split(left)] + if o.Go? then LoopReads(env, o.resolved, o.left, o.more, o.links) else []
  {
    hide OneRound, Split;
  }

  lemma WalkReadsUnfold(env: Env, stack: seq<string>, tokens: seq<string>, b: nat)
    requires tokens != []
    ensures var s := TokenWalk(env, stack, tokens[0], tokens[1..], b);
            WalkReads(env, stack, tokens, b) ==
            [tokens] + if s.Next? then WalkReads(env, s.stack, s.tokens, s.budget) else []
  {
    hide TokenWalk;
  }

  lemma {:induction false} LoopReadsIff(env: Env, resolved: string, left: string, more: bool, links: nat,
                                        stack: seq<string>)
    requires env.Valid() && links <= env.maxSymlinks + 1
    requires ShowsStack(resolved, stack) && AllNames(stack) && |resolved| < env.pathMax
    ensures var ts, b := Tokens(left, more), env.maxSymlinks + 1 - links;
            IsPrefix(LoopReads(env, resolved, left, more, links), WalkReads(env, stack, ts, b)) <==>
            LinksWhole(env, stack, ts, b)
    decreases env.maxSymlinks + 1 - links, if more then |left| + 1 else 0
  {
    hide OneRound, TokenWalk, Split, RenderDir, Render, StepFits, StepWhole, LoopReads, WalkReads, IsPrefix;
    var b := env.maxSymlinks + 1 - links;
    if !more {
      NothingToRead(env, resolved, left, links, stack, b);
    } else {
      var t, rest := Split(left)[0], Split(left)[1..];
      RoundMatches(env, resolved, left, links, stack);
      RoundFits(env, resolved, left, links);
      StepOfCut(env, stack, t, rest, b);
      LoopReadsUnfold(env, resolved, left, links);
      WalkReadsUnfold(env, stack, Split(left), b);
      var o, s := OneRound(env, resolved, left, links), TokenWalk(env, stack, t, rest, b);
      var behind := if s.Next? then WalkReads(env, s.stack, s.tokens, s.budget) else [];
      if o.Go? {
        PrefixCons(Split(left), LoopReads(env, o.resolved, o.left, o.more, o.links), behind);
        if StepWhole(env, stack, t, b) { LoopReadsIff(env, o.resolved, o.left, o.more, o.links, s.stack); }
      } else {
        PrefixCons(Split(left), [], behind);
      }
    }
  }

  lemma NothingToRead(env: Env, resolved: string, left: string, links: nat, stack: seq<string>, b: nat)
    requires env.pathMax >= 2 && resolved != "" && resolved[0] == '/' && links <= env.maxSymlinks + 1
    ensures IsPrefix(LoopReads(env, resolved, left, false, links), WalkReads(env, stack, [], b))
  {
  }

  /** As far as it gets, `realpath` reads exactly the tokens that pathname resolution reads, if
      and only if every link it follows has a target shorter than `PATH_MAX`. */
  lemma RealpathReadsIff(env: Env, path: string)
    requires env.Valid() && Walks(env, path) && |Join(StartTokens(path))| < env.pathMax
    ensures var text := if path[0] == '/' then path[1..] else path;
            IsPrefix(LoopReads(env, Render(StartStack(env, path)), text, true, 0),
                     WalkReads(env, StartStack(env, path), StartTokens(path), env.maxSymlinks + 1))
            <==> LinksWhole(env, StartStack(env, path), StartTokens(path), env.maxSymlinks + 1)
  {
    hide LoopReads, WalkReads, LinksWhole, Split, RenderDir, Join;
    RootText();
    var text := if path[0] == '/' then path[1..] else path;
    LoopReadsIff(env, Render(StartStack(env, path)), text, true, 0, StartStack(env, path));
  }

  /** A limit of six bytes, a link whose target has six, and a file that the cut target names. */
  const EXAMPLE: Env := Env(
    (p: string) => if p == "/a" then Symlink else if p == "/b" then OtherFile else NoStat(ENOENT),
    (p: string) => if p == "/a" then Target("././bc") else NoLink(EINVAL),
    CwdAt([]), 6, 8)

  /** The tokens of the example's texts. */
  lemma ExampleSlashes()
    ensures FirstSlash("a") == 1 && FirstSlash("././b") == 1 && FirstSlash("./b") == 1 && FirstSlash("b") == 1
    ensures Rest("a") == "" && Rest("././b") == "./b" && Rest("./b") == "b" && Rest("b") == ""
  {
    FirstSlashUnique("a", 1);
    FirstSlashUnique("././b", 1);
    FirstSlashUnique("./b", 1);
    FirstSlashUnique("b", 1);
    assert "././b"[2..] == "./b" && "./b"[2..] == "b";
  }

  lemma ExampleRounds()
    ensures OneRound(EXAMPLE, "/", "a", 0) == Go("/", "././b", true, 1)
    ensures OneRound(EXAMPLE, "/", "././b", 1) == Go("/", "./b", true, 1)
    ensures OneRound(EXAMPLE, "/", "./b", 1) == Go("/", "b", true, 1)
    ensures OneRound(EXAMPLE, "/", "b", 1) == Go("/b", "", false, 1)
  {
    hide FirstSlash, Rest, LastSlash;
    ExampleSlashes();
    assert "a"[..1] == "a" && "././b"[..1] == "." && "./b"[..1] == "." && "b"[..1] == "b";
    assert "/" + "a" == "/a" && "/" + "b" == "/b";
    assert EXAMPLE.ReadLink("/a") == Target("././b") by { assert "././bc"[..5] == "././b"; }
    assert StripLast("/a") == "/" by { assert "/" + "a" == "/a"; StripLastPops("/", "a"); }
  }

  /** A wrong success: the link names a missing entry, and `realpath` resolves to the file that
      the cut text names. */
  lemma CutLinkExample()
    ensures EXAMPLE.Valid()
    ensures Spec(EXAMPLE, "/a") == Resolved("/b")
    ensures Resolution(EXAMPLE, "/a") == Failed(ENOENT, "/bc")
    ensures !PathWhole(EXAMPLE, "/a")
  {
    hide OneRound, Join, WalkFits;
    assert EXAMPLE.Valid() by { RootText(); }
    ExampleRounds();
    var e := EXAMPLE;
    assert "/a"[1..] == "a";
    assert Loop(e, "/b", "", false, 1) == Resolved("/b");
    assert Loop(e, "/", "b", true, 1) == Resolved("/b");
    assert Loop(e, "/", "./b", true, 1) == Resolved("/b");
    assert Loop(e, "/", "././b", true, 1) == Resolved("/b");
    ExampleWalk();
    RealpathIsWalk(e, "/a");
  }

  lemma ExampleSteps()
    ensures TokenWalk(EXAMPLE, [], "a", [], 9) == Next([], [".", ".", "bc"], 8)
    ensures TokenWalk(EXAMPLE, [], "bc", [], 8) == End(Broke(ENOENT, "/bc"))
  {
    hide Render, RenderDir, Split, Join;
    RenderPush([], "a");
    RenderPush([], "bc");
    RootText();
    assert Render([] + ["a"]) == "/a" && Render([] + ["bc"]) == "/bc";
    assert Split("././bc") == [".", ".", "bc"] by { ExampleTarget(); }
  }

  lemma ExampleTarget()
    ensures Split("././bc") == [".", ".", "bc"]
  {
    hide Split, Join;
    JoinCons(".", [".", "bc"]);
    JoinCons(".", ["bc"]);
    JoinCons("bc", []);
    assert [".", ".", "bc"] == ["."] + [".", "bc"] && [".", "bc"] == ["."] + ["bc"];
    assert "." + "/" + ("." + "/" + "bc") == "././bc";
    SplitOfJoin([".", ".", "bc"]);
  }

  lemma ExampleWalk()
    ensures Resolution(EXAMPLE, "/a") == Failed(ENOENT, "/bc")
  {
    var e := EXAMPLE;
    assert "/a"[1..] == "a" && Split("a") == ["a"] by { FirstSlashUnique("a", 1); }
    assert TokenWalk(e, [], ".", [".", "bc"], 8) == Next([], [".", "bc"], 8);
    assert TokenWalk(e, [], ".", ["bc"], 8) == Next([], ["bc"], 8);
    hide TokenWalk, Split;
    ExampleSteps();
    WalkUnfolds(e, [], "a", [], 9);
    WalkUnfolds(e, [], ".", [".", "bc"], 8);
    WalkUnfolds(e, [], ".", ["bc"], 8);
    WalkUnfolds(e, [], "bc", [], 8);
    assert ["a"] + [] == ["a"] && ["bc"] + [] == ["bc"];
    assert ["."] + [".", "bc"] == [".", ".", "bc"] && ["."] + ["bc"] == [".", "bc"];
  }

  // ------------------------------------------------------------------ reading behind the buffer

  /** A text that fills `left` up to its last byte and has a slash in it. */
  predicate Full(env: Env, text: string)
  {
    |text| == env.pathMax - 1 && FirstSlash(text) < |text|
  }

  /** Some text that is put into `left`, at the start or for an expanded link, is full.
      `put` says that `left` was just put there. */
  predicate PutsFull(env: Env, resolved: string, left: string, put: bool, more: bool, links: nat)
    requires env.pathMax >= 2 && resolved != "" && resolved[0] == '/'
    requires links <= env.maxSymlinks + 1
    decreases env.maxSymlinks + 1 - links, if more then |left| + 1 else 0
  {
    more &&
    (|| (put && Full(env, left))
     || var o := OneRound(env, resolved, left, links);
        o.Go? && PutsFull(env, o.resolved, o.left, o.links != links, o.more, o.links))
  }

  /** Behind the first round of a text, `left_len` stays below `PATH_MAX` - 1 unless that round
      read behind the buffer already. */
  lemma {:induction false} OverreadsIff(env: Env, resolved: string, left: string, leftLen: nat, put: bool, more: bool,
                                        links: nat)
    requires env.pathMax >= 2 && resolved != "" && resolved[0] == '/' && links <= env.maxSymlinks + 1
    requires more ==> |left| <= leftLen < env.pathMax
    requires more && put ==> leftLen == |left|
    requires more && !put ==> leftLen < env.pathMax - 1
    ensures Overreads(env, resolved, left, leftLen, more, links) <==> PutsFull(env, resolved, left, put, more, links)
    decreases env.maxSymlinks + 1 - links, if more then |left| + 1 else 0
  {
    hide OneRound;
    if more {
      var o := OneRound(env, resolved, left, links);
      if o.Go? && !ReadsBehind(env, left, leftLen) {
        OverreadsIff(env, o.resolved, o.left, NextLen(left, leftLen, links, o), o.links != links, o.more, o.links);
      }
    }
  }

  /** A call of `realpath` reads behind its buffer if and only if the path, without the slash it
      starts with, or the text of some link it expands has length `PATH_MAX` - 1 and a slash in
      it. */
  lemma CallOverreadsIff(env: Env, path: string)
    requires env.Valid() && Walks(env, path) && |Join(StartTokens(path))| < env.pathMax
    ensures var text := if path[0] == '/' then path[1..] else path;
            CallOverreads(env, path) <==> PutsFull(env, Render(StartStack(env, path)), text, true, true, 0)
  {
    hide Overreads, PutsFull, Split, Join, RenderDir;
    RootText();
    var text := if path[0] == '/' then path[1..] else path;
    JoinOfSplit(text);
    OverreadsIff(env, Render(StartStack(env, path)), text, |text|, true, true, 0);
  }

  /** Paths that are not walked read nothing. */
  lemma OthersDoNotOverread(env: Env, path: string)
    requires env.Valid() && !(Walks(env, path) && |Join(StartTokens(path))| < env.pathMax)
    ensures !CallOverreads(env, path)
  {
    hide Overreads, Join, Split;
    if path != "" { JoinOfSplit(if path[0] == '/' then path[1..] else path); }
  }

  /** Every path of that length with a slash in it does, whatever the file system. */
  lemma FullPathOverreads(env: Env, text: string)
    requires env.Valid() && Full(env, text)
    ensures CallOverreads(env, "/" + text)
  {
    assert ("/" + text)[1..] == text;
  }

  /** "/a/b" with a limit of four bytes. */
  lemma OverreadExample()
    ensures EXAMPLE.(pathMax := 4).Valid() && CallOverreads(EXAMPLE.(pathMax := 4), "/a/b")
  {
    RootText();
    FirstSlashUnique("a/b", 1);
    assert "/" + "a/b" == "/a/b";
    FullPathOverreads(EXAMPLE.(pathMax := 4), "a/b");
  }

  // ------------------------------------------------------------------ the number of links

  /** The name of the `k`-th file of a chain of links. */
  function Link(k: nat): (name: string)
    ensures |name| == k && (k > 0 ==> IsName(name))
  {
    var name := seq(k, i => 'a');
    assert forall i :: 0 <= i < |name| ==> name[i] == 'a';
    assert k > 0 ==> name[0] == 'a';
    name
  }

  /** `n` links in a row: each names the one before it, the first names a file. */
  ghost predicate IsChain(env: Env, n: nat)
  {
    && env.lstat("/" + Link(1)) == OtherFile
    && forall k :: 2 <= k <= n + 1 ==>
         env.lstat("/" + Link(k)) == Symlink && env.readlink("/" + Link(k)) == Target(Link(k - 1))
  }

  lemma ChainStep(env: Env, n: nat, budget: nat)
    requires IsChain(env, n)
    ensures Render([Link(n + 1)]) == "/" + Link(n + 1) && RenderDir([]) == "/" && Join([Link(n + 1)]) == Link(n + 1)
    ensures TokenWalk(env, [], Link(n + 1), [], budget)
         == if n == 0 then Next([Link(1)], [], budget)
            else if budget == 0 then End(OutOfLinks("/" + Link(n + 1)))
            else Next([], [Link(n)], budget - 1)
    ensures Split(Link(n + 1)) == [Link(n + 1)]
  {
    assert IsName(Link(n + 1)) && [] + [Link(n + 1)] == [Link(n + 1)];
    assert Render([Link(n + 1)]) == "/" + Link(n + 1);
    FirstSlashUnique(Link(n + 1), n + 1);
    if n > 0 {
      assert IsName(Link(n));
      FirstSlashUnique(Link(n), n);
    }
  }

  lemma ChainFits(env: Env, n: nat, budget: nat)
    requires IsChain(env, n) && n + 2 < env.pathMax
    ensures StepFits(env, [], Link(n + 1), [], budget)
  {
    ChainStep(env, n, budget);
    if n > 0 { FirstSlashUnique(Link(n), n); }
  }

  lemma OneToken(env: Env, t: string, b: nat)
    ensures var s := TokenWalk(env, [], t, [], b);
            && Walk(env, [], [t], b) == (if s.End? then s.w else Walk(env, s.stack, s.tokens, s.budget))
            && (WalkFits(env, [], [t], b) <==>
                  StepFits(env, [], t, [], b) && (s.Next? ==> WalkFits(env, s.stack, s.tokens, s.budget)))
  {
    assert [t][1..] == [];
  }

  lemma AtTheEnd(env: Env, stack: seq<string>, b: nat)
    ensures Walk(env, stack, [], b) == At(stack) && WalkFits(env, stack, [], b)
  {
  }

  /** Resolution goes to the end of the chain with enough budget, else stops in the middle. */
  lemma {:induction false} ChainWalk(env: Env, n: nat, budget: nat)
    requires IsChain(env, n) && n + 2 < env.pathMax
    ensures Walk(env, [], [Link(n + 1)], budget)
         == if n <= budget then At([Link(1)]) else OutOfLinks("/" + Link(n + 1 - budget))
    ensures WalkFits(env, [], [Link(n + 1)], budget)
  {
    hide Walk, WalkFits, TokenWalk, StepFits, Render, RenderDir, Join, Link;
    ChainStep(env, n, budget);
    ChainFits(env, n, budget);
    OneToken(env, Link(n + 1), budget);
    if n == 0 {
      AtTheEnd(env, [Link(1)], budget);
    } else if budget > 0 {
      ChainWalk(env, n - 1, budget - 1);
    }
  }

  /** `realpath` follows `MAXSYMLINKS` + 1 links in a row, and not one more. */
  lemma ChainResolvesIff(env: Env, n: nat)
    requires env.Valid() && IsChain(env, n) && n + 2 < env.pathMax
    ensures Spec(env, "/" + Link(n + 1))
         == if n <= env.maxSymlinks + 1 then Resolved("/" + Link(1))
            else Failed(ELOOP, "/" + Link(n - env.maxSymlinks))
  {
    hide Walk, WalkFits, TokenWalk, RenderDir, Render, Join, Split, Spec, Link;
    var path := "/" + Link(n + 1);
    assert path != "/" && path[1..] == Link(n + 1);
    ChainStep(env, n, 0);
    ChainStep(env, 0, 0);
    ChainWalk(env, n, env.maxSymlinks + 1);
    RealpathIsWalk(env, path);
  }

  /** A file system with such a chain. */
  ghost function ChainEnv(n: nat, maxSymlinks: nat): Env
  {
    Env((p: string) => if p == "/a" then OtherFile else Symlink,
        (p: string) => if |p| > 2 && p[|p| - 1] != NUL then Target(Link(|p| - 2)) else NoLink(EINVAL),
        CwdAt([]), n + 3, maxSymlinks)
  }

  /** The bound is attained: a path through `MAXSYMLINKS` + 1 links resolves. */
  lemma BoundAttained(maxSymlinks: nat)
    ensures var n := maxSymlinks + 1;
            var env := ChainEnv(n, maxSymlinks);
            env.Valid() && IsChain(env, n) && Spec(env, "/" + Link(n + 1)) == Resolved("/" + Link(1))
  {
    var n := maxSymlinks + 1;
    var env := ChainEnv(n, maxSymlinks);
    assert Link(1) == "a";
    RootText();
    assert env.Valid() && IsChain(env, n);
    hide Spec;
    ChainResolvesIff(env, n);
  }
}
