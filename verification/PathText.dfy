/** Path text as tokens between slashes, and component stacks as text. */
module PathText {

  ghost predicate SlashFree(t: string)
  {
    forall i :: 0 <= i < |t| ==> t[i] != '/'
  }

  /** A component that names a directory entry. */
  ghost predicate IsName(t: string)
  {
    t != "" && t != "." && t != ".." && SlashFree(t)
  }

  ghost predicate AllNames(ts: seq<string>)
  {
    forall i :: 0 <= i < |ts| ==> IsName(ts[i])
  }

  ghost predicate AllSlashFree(ts: seq<string>)
  {
    forall i :: 0 <= i < |ts| ==> SlashFree(ts[i])
  }

  /** Index of the first slash, or the length when there is none. */
  function FirstSlash(s: string): (k: nat)
    ensures k <= |s|
    ensures forall i :: 0 <= i < k ==> s[i] != '/'
    ensures k < |s| ==> s[k] == '/'
  {
    if s == "" || s[0] == '/' then 0
    else
      var k := 1 + FirstSlash(s[1..]);
      assert forall i :: 0 < i < k ==> s[i] == s[1..][i - 1];
      k
  }

  lemma FirstSlashUnique(s: string, k: nat)
    requires k <= |s|
    requires forall i :: 0 <= i < k ==> s[i] != '/'
    requires k < |s| ==> s[k] == '/'
    ensures FirstSlash(s) == k
  {
  }

  /** The tokens of a path: what stands between slashes, empty ones included. */
  function Split(s: string): (ts: seq<string>)
    ensures ts != []
    decreases |s|
  {
    var k := FirstSlash(s);
    if k == |s| then [s] else [s[..k]] + Split(s[k + 1..])
  }

  function Join(ts: seq<string>): string
    requires ts != []
  {
    if |ts| == 1 then ts[0] else ts[0] + "/" + Join(ts[1..])
  }

  lemma {:induction false} SplitSlashFree(s: string)
    ensures AllSlashFree(Split(s))
    decreases |s|
  {
    var k := FirstSlash(s);
    if k == |s| {
      assert s[..k] == s;
    } else {
      SplitSlashFree(s[k + 1..]);
    }
  }

  /** Splitting undoes joining. */
  lemma {:induction false} SplitOfJoin(ts: seq<string>)
    requires ts != [] && AllSlashFree(ts)
    ensures Split(Join(ts)) == ts
  {
    hide FirstSlash, Split, Join;
    var t, rest := ts[0], ts[1..];
    assert ts == [t] + rest;
    JoinCons(t, rest);
    var s := Join(ts);
    SplitHere(s);
    if rest == [] {
      assert ts == [t];
      FirstSlashUnique(s, |t|);
    } else {
      assert s[..|t|] == t && s[|t| + 1..] == Join(rest);
      FirstSlashUnique(s, |t|);
      SplitOfJoin(rest);
    }
  }

  lemma {:induction false} SplitHere(s: string)
    ensures var k := FirstSlash(s); Split(s) == if k == |s| then [s] else [s[..k]] + Split(s[k + 1..])
  {
    hide FirstSlash;
  }

  lemma JoinCons(t: string, ts: seq<string>)
    ensures Join([t]) == t
    ensures ts != [] ==> Join([t] + ts) == t + "/" + Join(ts)
  {
    assert ([t] + ts)[1..] == ts;
  }

  /** Joining undoes splitting. */
  lemma {:induction false} JoinOfSplit(s: string)
    ensures Join(Split(s)) == s
    decreases |s|
  {
    hide FirstSlash, Split, Join;
    var k := FirstSlash(s);
    SplitHere(s);
    if k == |s| {
      JoinCons(s, []);
    } else {
      var rest := s[k + 1..];
      JoinOfSplit(rest);
      JoinCons(s[..k], Split(rest));
      assert s == s[..k] + "/" + rest;
    }
  }

  lemma FirstSlashAppend(x: string, y: string)
    ensures FirstSlash(x + "/" + y) == FirstSlash(x)
  {
    FirstSlashUnique(x + "/" + y, FirstSlash(x));
  }

  /** A slash between two texts separates their tokens. */
  lemma {:induction false} SplitAppend(x: string, y: string)
    ensures Split(x + "/" + y) == Split(x) + Split(y)
    decreases |x|
  {
    hide FirstSlash, Split;
    var s := x + "/" + y;
    var k := FirstSlash(x);
    FirstSlashAppend(x, y);
    SplitHere(s);
    SplitHere(x);
    if k == |x| {
      assert s[..k] == x && s[k + 1..] == y;
    } else {
      var rest := x[k + 1..];
      assert s[..k] == x[..k] && s[k + 1..] == rest + "/" + y;
      SplitAppend(rest, y);
    }
  }

  lemma {:induction false} JoinSnoc(ts: seq<string>, t: string)
    requires ts != []
    ensures Join(ts + [t]) == Join(ts) + "/" + t
  {
    var u := ts + [t];
    if |ts| == 1 {
      assert u[1..] == [t];
    } else {
      assert u[1..] == ts[1..] + [t];
      JoinSnoc(ts[1..], t);
      assert ts[0] + "/" + (Join(ts[1..]) + "/" + t) == (ts[0] + "/" + Join(ts[1..])) + "/" + t;
    }
  }

  /** A component stack as the text of a directory, always ending in a slash. */
  function RenderDir(stack: seq<string>): (s: string)
    ensures s != "" && s[0] == '/' && s[|s| - 1] == '/'
    ensures stack != [] ==> |s| > 1
  {
    if stack == [] then "/"
    else RenderDir(stack[..|stack| - 1]) + stack[|stack| - 1] + "/"
  }

  /** A component stack as an absolute path without a trailing slash (except the root). */
  function Render(stack: seq<string>): (s: string)
    ensures s != "" && s[0] == '/'
  {
    if stack == [] then "/"
    else RenderDir(stack[..|stack| - 1]) + stack[|stack| - 1]
  }

  lemma RootText()
    ensures Render([]) == RenderDir([]) == "/"
  {
  }

  lemma RenderPush(stack: seq<string>, t: string)
    ensures Render(stack + [t]) == RenderDir(stack) + t
    ensures RenderDir(stack + [t]) == RenderDir(stack) + t + "/"
  {
    assert (stack + [t])[..|stack|] == stack;
  }

  /** The text behind the leading slash is the joined stack. */
  lemma {:induction false} RenderIsJoin(stack: seq<string>)
    requires stack != []
    ensures Render(stack) == "/" + Join(stack)
  {
    var n := |stack| - 1;
    if n > 0 {
      var below, t := stack[..n], stack[n];
      RenderIsJoin(below);
      JoinSnoc(below, t);
      assert stack == below + [t];
      RenderPush(below, t);
    }
  }

  /** Index of the last slash. */
  function LastSlash(s: string): (k: nat)
    requires s != "" && s[0] == '/'
    ensures k < |s| && s[k] == '/'
    ensures forall i :: k < i < |s| ==> s[i] != '/'
  {
    if s[|s| - 1] == '/' then |s| - 1 else LastSlash(s[..|s| - 1])
  }

  /** Drop the last character, then everything behind the last slash. */
  function StripLast(s: string): (r: string)
    requires |s| > 1 && s[0] == '/'
    ensures r != "" && |r| < |s| && r[0] == '/' && r[|r| - 1] == '/'
    ensures r <= s
  {
    s[..LastSlash(s[..|s| - 1]) + 1]
  }

  lemma {:induction false} LastSlashBehind(d: string, u: string)
    requires d != "" && d[0] == '/' && d[|d| - 1] == '/' && SlashFree(u)
    ensures LastSlash(d + u) == |d| - 1
  {
    if u == "" {
      assert d + u == d;
    } else {
      var v := u[..|u| - 1];
      assert (d + u)[..|d + u| - 1] == d + v;
      LastSlashBehind(d, v);
    }
  }

  /** Stripping a directory text with `t` behind it uncovers the directory. */
  lemma StripLastPops(d: string, t: string)
    requires d != "" && d[0] == '/' && d[|d| - 1] == '/'
    requires t != "" && SlashFree(t)
    ensures StripLast(d + t) == d
  {
    assert (d + t)[..|d + t| - 1] == d + t[..|t| - 1];
    LastSlashBehind(d, t[..|t| - 1]);
  }

  lemma StripLastPopsDir(d: string, t: string)
    requires d != "" && d[0] == '/' && d[|d| - 1] == '/'
    requires t != "" && SlashFree(t)
    ensures StripLast(d + t + "/") == d
  {
    var s := d + t + "/";
    assert s[..|s| - 1] == d + t;
    LastSlashBehind(d, t);
    assert s[..|d|] == d;
  }
}
