/** Paths on a small forest of file systems for which the evaluator does not do what one would
    expect. */
module EvalExamples {
  import opened Basics
  import opened EvalPath
  import opened EvalPathProps
  import opened EvalGuards

  /** In the root of file system 1 there are a symbolic link "l" to a missing entry "x", and a
      directory "m" on which file system 2 is mounted. File system 3 has been unmounted. */
  function Answered(loc: Loc, token: string): Answer
  {
    if token == "." then Enter(if loc.At? then loc.n else 0, true)
    else if token == ".." then Enter(0, true)
    else if loc == At(1, 0) && token == "l" then Follow("x")
    else if loc == At(1, 0) && token == "m" then Cross(2)
    else NoEntry
  }

  const EXAMPLE: World := World(
    m => 0, m => if m == 2 then Some(At(1, 5)) else None, (m, n) => 0, (clock, loc) => true,
    (clock, loc, token, more) => Answered(loc, token), (clock, m) => m != 3, (clock, loc) => None,
    (clock, loc, write) => Granted, m => true, m => m, (m, n) => n, 8)

  const PLAIN: Flags := Flags(false, false, false, false, false)

  lemma ExampleValid()
    ensures EXAMPLE.Valid()
  {
    forall clock, loc, token, more ensures EXAMPLE.AnswerOk(clock, loc, token, more) {}
  }

  /** The context in which a path is evaluated, from the root of file system 1. */
  function From(path: string, level: nat, clock: nat, current: Loc): Ctx
  {
    Ctx(path, "", PLAIN, level, current, At(1, 0), At(1, 0), NoErrno, clock, [At(1, 0)], [], None)
  }

  lemma ExampleMissing(clock: nat)
    ensures EXAMPLE.Valid()
    ensures Steps(EXAMPLE, From("x", 1, clock, At(1, 0))) == From("", 1, clock + 2, At(1, 0)).(token := "x")
  {
    ExampleValid();
    var c := From("x", 1, clock, At(1, 0));
    TakeName(c, "x", "");
    var e := c.(path := "", token := "x", clock := clock + 1);
    assert Apply(EXAMPLE, e, "x") == Outcome(e.Tick(), Missing);
    assert Generic(EXAMPLE, c) == e.Tick();
    StepsUnfold(EXAMPLE, c);
  }

  lemma ExampleLink(saved: string)
    requires saved in {"", "/"}
    ensures EXAMPLE.Valid() && IsDelimiter('/') && ("l" + saved)[0] == 'l'
    ensures var c := From("l" + saved, 0, 3, At(1, 0));
            && Begin(EXAMPLE, "l" + saved, PLAIN, At(1, 0), At(1, 0), NoErrno) == c
            && AtLink(EXAMPLE, c, "x") && Saved(c) == saved
            && Inner(EXAMPLE, c, "x") == From("", 1, 7, At(1, 0)).(token := "x")
  {
    ExampleValid();
    ExampleMissing(5);
    TakeName(From("l" + saved, 0, 3, At(1, 0)), "l", saved);
  }

  /** A link to a missing entry is not found; with a slash behind it, it leads to its own
      directory. */
  lemma DanglingExample()
    ensures EXAMPLE.Valid()
    ensures var r := Evaluate(EXAMPLE, "l", PLAIN, At(1, 0), At(1, 0), NoErrno);
            r.current == Null && r.errno == ENOENT
    ensures Evaluate(EXAMPLE, "l/", PLAIN, At(1, 0), At(1, 0), NoErrno).current == At(1, 0)
  {
    hide World.Valid, AtLink, Inner, Saved, Begin, Steps;
    ExampleLink("");
    ExampleLink("/");
    assert "l" + "" == "l" && "l" + "/" == "l/";
    assert Trimmed("/") == "" by { TrimSlash(""); }
    DanglingLink(EXAMPLE, From("l", 0, 3, At(1, 0)), "x");
    TrailingDelimiterIff(EXAMPLE, From("l/", 0, 3, At(1, 0)), "x");
  }

  lemma ExampleDot()
    ensures EXAMPLE.Valid()
    ensures var c := From(".", 0, 3, At(1, 0)).(root := Null, errno := ENXIO);
            && Begin(EXAMPLE, ".", PLAIN, At(3, 0), At(1, 0), NoErrno) == c
            && Steps(EXAMPLE, c) == c.(path := "", clock := 5, trail := [At(1, 0), At(1, 0)])
  {
    ExampleValid();
    var c := From(".", 0, 3, At(1, 0)).(root := Null, errno := ENXIO);
    var e := c.(path := "", token := ".", clock := 4);
    assert Run(".") == 1;
    assert NextToken(c) == c.(path := "", token := ".");
    var d := c.(path := "", clock := 5, trail := [At(1, 0), At(1, 0)]);
    assert Apply(EXAMPLE, e, ".") == Outcome(d, Continue);
    assert NextToken(d) == d && Generic(EXAMPLE, d) == d;
    assert Generic(EXAMPLE, c) == d;
    StepsUnfold(EXAMPLE, c);
  }

  /** A relative path is evaluated although the root location is gone, and does not stay below
      it when the working directory is elsewhere. */
  lemma OutsideExample()
    ensures EXAMPLE.Valid() && Gone(EXAMPLE, 3)
    ensures var r := Evaluate(EXAMPLE, ".", PLAIN, At(3, 0), At(1, 0), NoErrno);
            && r.current == At(1, 0) && !EXAMPLE.Within(r.current, At(3, 0))
            && !Confined(EXAMPLE, r) && !ConfinedTo(EXAMPLE, r, At(3, 0))
  {
    hide World.Valid, Begin, Steps;
    ExampleDot();
    assert EXAMPLE.Up(At(1, 0)) == None;
  }

  /** "m/" crosses into file system 2. */
  lemma ExampleDown(c: Ctx)
    requires c == From("m/", 0, 3, At(1, 0))
    ensures EXAMPLE.Valid()
    ensures var r := Steps(EXAMPLE, c);
            && r.path == r.token == "" && r.level == 0 && r.flags == PLAIN
            && r.current == r.start == At(2, 0) && r.root == At(1, 0)
  {
    ExampleValid();
    TakeName(c, "m", "/");
    var e := c.(path := "/", token := "m", clock := 4);
    assert Apply(EXAMPLE, e, "m") == Outcome(Restart(EXAMPLE, e.(token := "", clock := 5), At(2, 0)), Done);
    var d := Restart(EXAMPLE, e.(token := "", clock := 5), At(2, 0));
    assert Generic(EXAMPLE, c) == d;
    StepsUnfold(EXAMPLE, c);
    TrimSlash("");
    OnlyDelimiters(EXAMPLE, d);
  }

  /** ".." crosses back into file system 1. */
  lemma ExampleUp(c: Ctx)
    requires c.path == ".." && c.level == 0 && c.current == At(2, 0) && c.root == At(1, 0)
    ensures EXAMPLE.Valid()
    ensures var r := Steps(EXAMPLE, c);
            && r.path == r.token == "" && r.level == 0 && r.flags == c.flags
            && r.current == At(1, 0) && r.start == At(1, 5) && r.root == At(1, 0)
  {
    ExampleValid();
    RunOfName("..", "");
    assert ".." + "" == "..";
    var e := c.(path := "", token := "..").Tick();
    assert NextToken(c) == c.(path := "", token := "..");
    var d := Restart(EXAMPLE, e.(path := "..", token := ""), At(1, 5));
    assert PutBack(e) == e.(path := "..", token := "");
    assert Generic(EXAMPLE, c) == d;
    StepsUnfold(EXAMPLE, c);
    ExampleRise(d);
  }

  lemma ExampleRise(d: Ctx)
    requires d.path == ".." && d.level == 0 && d.current == d.start == At(1, 5) && d.root == At(1, 0)
    ensures EXAMPLE.Valid()
    ensures var r := Steps(EXAMPLE, d);
            && r.path == r.token == "" && r.level == 0 && r.flags == d.flags
            && r.current == At(1, 0) && r.start == At(1, 5) && r.root == At(1, 0)
  {
    ExampleValid();
    RunOfName("..", "");
    assert ".." + "" == "..";
    var e := d.(path := "", token := "..").Tick();
    assert NextToken(d) == d.(path := "", token := "..");
    var f := e.Tick().(token := "").Moved(At(1, 0));
    assert Apply(EXAMPLE, e, "..") == Outcome(f, Continue);
    assert NextToken(f) == f && Generic(EXAMPLE, f) == f;
    assert Generic(EXAMPLE, d) == f;
    StepsUnfold(EXAMPLE, d);
  }

  lemma ExampleParts()
    ensures ParentPath("m/..") == "m/" && "m/.."[ParentLen("m/..")..] == ".."
  {
    assert "m/.."[..3] == "m/." && "m/."[..2] == "m/";
    assert "m/.."[..2] == "m/" && "m/.."[2..] == "..";
  }

  lemma ExampleParent()
    ensures EXAMPLE.Valid()
    ensures var c := Evaluate(EXAMPLE, "m/", PLAIN, At(1, 0), At(1, 0), NoErrno);
            c.current == At(2, 0) && c.root == At(1, 0) && c.level == 0
  {
    ExampleValid();
    var b := Begin(EXAMPLE, "m/", PLAIN, At(1, 0), At(1, 0), NoErrno);
    assert b == From("m/", 0, 3, At(1, 0));
    hide World.Valid, Steps, Begin;
    ExampleDown(b);
  }

  /** "m/.." ends on another mount than its parent "m/": cleaning up takes the parent's location
      off without a test and without a handle on its mount. */
  lemma UnguardedExample()
    ensures EXAMPLE.Valid()
    ensures var r := EvaluateParent(EXAMPLE, "m/..", PLAIN, PLAIN, At(1, 0), At(1, 0), NoErrno);
            r.parent == At(2, 0) && r.c.current == At(1, 0) && !ParentGuarded(r)
  {
    hide World.Valid, Steps, Evaluate, ParentLen, ParentPath;
    ExampleParts();
    ExampleParent();
    var c := Evaluate(EXAMPLE, "m/", PLAIN, At(1, 0), At(1, 0), NoErrno);
    ExampleUp(c.Tick().(path := "..", flags := PLAIN));
  }
}
