/** `realpath`: the loop over three fixed-size buffers, and the string-level
    recursion it is proved equal to. */
module Realpath {
  import opened Basics
  import opened CStrings
  import opened PathText

  datatype Errno = EINVAL | ENOENT | ENOMEM | ENAMETOOLONG | ELOOP | ENOTDIR | Other(code: int)

  datatype Stat = NoStat(errno: Errno) | Directory | Symlink | OtherFile

  datatype LinkText = NoLink(errno: Errno) | Target(text: string)

  datatype Cwd = NoCwd(errno: Errno) | CwdAt(names: seq<string>)

  /** The file system `realpath` looks at, and the two limits it is compiled with.
      The file system does not change while one call runs. */
  datatype Env = Env(
    lstat: string -> Stat,
    readlink: string -> LinkText,
    cwd: Cwd,
    pathMax: nat,
    maxSymlinks: nat)
  {
    /** What the system calls promise: link targets are non-empty C strings, and
        `getcwd(buf, PATH_MAX)` yields an absolute canonical path that fits. */
    ghost predicate Valid()
    {
      && pathMax >= 2
      && (forall p :: readlink(p).Target? ==> readlink(p).text != "" && NoNul(readlink(p).text))
      && (cwd.CwdAt? ==> AllNames(cwd.names) && |Render(cwd.names)| < pathMax && NoNul(Render(cwd.names)))
    }

    /** `readlink` with the buffer size `PATH_MAX - 1`: a longer target is cut off silently. */
    function ReadLink(p: string): (r: LinkText)
      requires pathMax >= 2
      ensures r.Target? <==> readlink(p).Target?
      ensures r.Target? ==> |r.text| < pathMax && r.text <= readlink(p).text
      ensures r.Target? && |readlink(p).text| < pathMax ==> r == readlink(p)
    {
      match readlink(p)
      case NoLink(e) => NoLink(e)
      case Target(t) => Target(Truncated(t, pathMax))
    }

    /** The file system as `realpath` sees it: every link target cut off at its buffer size. */
    function Cut(): (r: Env)
      ensures r == this.(readlink := r.readlink)
      ensures pathMax >= 2 ==> forall p :: r.readlink(p) == ReadLink(p)
    {
      this.(readlink := (p: string) => if pathMax >= 2 then ReadLink(p) else readlink(p))
    }
  }

  /** `Refused` stands for the exits that leave no useful text in the buffer. */
  datatype Outcome = Resolved(path: string) | Failed(errno: Errno, at: string) | Refused(error: Errno)

  /** Everything behind a possible trailing slash; the root keeps its slash. */
  function Unslashed(s: string): (r: string)
    requires s != ""
  {
    if |s| > 1 && s[|s| - 1] == '/' then s[..|s| - 1] else s
  }

  /** One round of the loop: it ends the call, or leaves new texts in the buffers. */
  datatype Round = Stop(outcome: Outcome) | Go(resolved: string, left: string, more: bool, links: nat)

  /** The text to read next once a link is expanded, `None` when it does not fit. */
  function Spliced(target: string, rest: string, found: bool, pathMax: nat): (r: Option<string>)
    requires target != ""
    ensures r.Some? ==> r.value != ""
    ensures r.Some? && |target| < pathMax ==> |r.value| < pathMax
  {
    if !found then Some(target)
    else if target[|target| - 1] == '/' then
      if |target| + |rest| >= pathMax then None else Some(target + rest)
    else if |target| + 1 >= pathMax || |target| + 1 + |rest| >= pathMax then None
    else Some(target + "/" + rest)
  }

  /** The round for a component that turned out to be a symbolic link. */
  function LinkRound(env: Env, full: string, rest: string, found: bool, links: nat): (o: Round)
    requires env.pathMax >= 2 && |full| > 1 && full[0] == '/'
    ensures o.Go? ==> o.resolved != "" && o.resolved[0] == '/' && links <= env.maxSymlinks && o.links == links + 1
    ensures o.Go? ==> o.more && |o.left| < env.pathMax
  {
    if links > env.maxSymlinks then Stop(Failed(ELOOP, full)) else
    match env.ReadLink(full)
    case NoLink(e) => Stop(Failed(e, full))
    case Target(t) =>
      if t == "" then Stop(Refused(EINVAL)) else  // Env.Valid() rules empty targets out
      match Spliced(t, rest, found, env.pathMax)
      case None => Stop(Refused(ENAMETOOLONG))
      case Some(left) => Go(if t[0] == '/' then "/" else StripLast(full), left, true, links + 1)
  }

  /** The round for a token read in the directory text `dir`, with `rest` behind it. */
  function TokenRound(env: Env, dir: string, token: string, rest: string, found: bool, links: nat): (o: Round)
    requires env.pathMax >= 2 && dir != "" && dir[0] == '/'
    ensures o.Go? ==> o.resolved != "" && o.resolved[0] == '/'
    ensures o.Go? && o.links == links ==> o.left == rest && o.more == found
    ensures o.Go? && o.links != links ==> links <= env.maxSymlinks && o.links == links + 1
    ensures o.Go? && o.links != links ==> o.more && |o.left| < env.pathMax
  {
    if token == "" then
      match env.lstat(dir)
      case NoStat(e) => Stop(Failed(e, dir))
      case Directory => Go(dir, rest, found, links)
      case _ => Stop(Failed(ENOTDIR, dir))
    else if token == "." then
      Go(dir, rest, found, links)
    else if token == ".." then
      Go(if |dir| > 1 then StripLast(dir) else dir, rest, found, links)
    else
      var full := dir + token;
      if |full| >= env.pathMax then Stop(Refused(ENAMETOOLONG)) else
      match env.lstat(full)
      case NoStat(e) => Stop(Failed(e, full))
      case Symlink => LinkRound(env, full, rest, found, links)
      case _ => Go(full, rest, found, links)
  }

  /** The text behind the first token, empty when there is no slash. */
  function Rest(left: string): (r: string)
  {
    var k := FirstSlash(left);
    if k < |left| then left[k + 1..] else ""
  }

  /** `resolved` as a directory text. */
  function Slashed(s: string): (r: string)
    requires s != ""
    ensures s <= r && r[|r| - 1] == '/'
  {
    if s[|s| - 1] == '/' then s else s + "/"
  }

  /** Every round that goes on has used up a link or some of the text. */
  function OneRound(env: Env, resolved: string, left: string, links: nat): (o: Round)
    requires env.pathMax >= 2 && resolved != "" && resolved[0] == '/'
    ensures o.Go? ==> o.resolved != "" && o.resolved[0] == '/'
    ensures o.Go? ==> links <= o.links <= links + 1 && (o.links == links || links <= env.maxSymlinks)
    ensures o.Go? && o.links == links ==> o.left == Rest(left) && o.more == (FirstSlash(left) < |left|)
    ensures o.Go? && o.links != links ==> o.more && |o.left| < env.pathMax
    ensures o.Go? && o.links == links && o.more ==> |o.left| < |left|
  {
    var k := FirstSlash(left);
    if resolved[|resolved| - 1] != '/' && |resolved| + 1 >= env.pathMax then Stop(Refused(ENAMETOOLONG))
    else TokenRound(env, Slashed(resolved), left[..k], Rest(left), k < |left|, links)
  }

  /** The resolver loop on the texts that the buffers hold. `more` is `left_len != 0`. */
  function Loop(env: Env, resolved: string, left: string, more: bool, links: nat): (o: Outcome)
    requires env.pathMax >= 2 && resolved != "" && resolved[0] == '/'
    requires links <= env.maxSymlinks + 1
    decreases env.maxSymlinks + 1 - links, if more then |left| + 1 else 0
  {
    if !more then Resolved(Unslashed(resolved)) else
    match OneRound(env, resolved, left, links)
    case Stop(o) => o
    case Go(r, l, m, n) => Loop(env, r, l, m, n)
  }

  /** The whole call on a non-NULL path and a caller-supplied buffer. */
  function Spec(env: Env, path: string): (o: Outcome)
    requires env.pathMax >= 2
    requires env.cwd.CwdAt? ==> |Render(env.cwd.names)| < env.pathMax
  {
    if path == "" then Refused(ENOENT)
    else if path[0] == '/' then
      if path == "/" then Resolved("/")
      else if |path| - 1 >= env.pathMax then Refused(ENAMETOOLONG)
      else Loop(env, "/", path[1..], true, 0)
    else
      match env.cwd
      case NoCwd(e) => Failed(e, ".")
      case CwdAt(names) =>
        if |path| >= env.pathMax then Refused(ENAMETOOLONG)
        else Loop(env, Render(names), path, true, 0)
  }

  // ------------------------------------------------------------------ the length variable

  /** `left_len` after a round: it loses the token but not its slash, and starts afresh with
      the text of an expanded link. */
  function NextLen(left: string, leftLen: nat, links: nat, round: Round): nat
    requires round.Go? && |left| <= leftLen
  {
    if round.links != links then |round.left|
    else if FirstSlash(left) < |left| then leftLen - FirstSlash(left)
    else 0
  }

  /** The `memmove` of a round reads behind the buffer: with a slash found, it reads up to the
      byte at `left_len + 1`. */
  predicate ReadsBehind(env: Env, left: string, leftLen: nat)
  {
    FirstSlash(left) < |left| && leftLen + 1 >= env.pathMax
  }

  /** Some round of the loop reads behind the buffer. */
  predicate Overreads(env: Env, resolved: string, left: string, leftLen: nat, more: bool, links: nat)
    requires env.pathMax >= 2 && resolved != "" && resolved[0] == '/'
    requires links <= env.maxSymlinks + 1 && (more ==> |left| <= leftLen)
    decreases env.maxSymlinks + 1 - links, if more then |left| + 1 else 0
  {
    more &&
    (|| ReadsBehind(env, left, leftLen)
     || var o := OneRound(env, resolved, left, links);
        o.Go? && Overreads(env, o.resolved, o.left, NextLen(left, leftLen, links, o), o.more, o.links))
  }

  /** Some round of the whole call reads behind the buffer. */
  predicate CallOverreads(env: Env, path: string)
    requires env.pathMax >= 2
  {
    if path == "" then false
    else if path[0] == '/' then
      path != "/" && |path| - 1 < env.pathMax && Overreads(env, "/", path[1..], |path| - 1, true, 0)
    else
      env.cwd.CwdAt? && |path| < env.pathMax && Overreads(env, Render(env.cwd.names), path, |path|, true, 0)
  }

  // ------------------------------------------------------------------ the code

  /** Copies the token out: up to the slash, or all `leftLen` bytes when there is none. */
  method CopyToken(left: array<char>, leftLen: nat, nextToken: array<char>, ghost text: string)
    returns (found: bool, n: nat)
    requires left != nextToken && left.Length == nextToken.Length
    requires Holds(left, text) && |text| <= leftLen < left.Length
    modifies nextToken
    ensures found == (FirstSlash(text) < |text|)
    ensures n == if found then FirstSlash(text) else leftLen
    ensures Holds(nextToken, text[..FirstSlash(text)])
  {
    var k := 0;
    while left[k] != NUL && left[k] != '/'
      invariant k <= |text| && forall i :: 0 <= i < k ==> text[i] != '/'
      decreases |text| - k
    {
      k := k + 1;
    }
    FirstSlashUnique(text, k);
    found := left[k] == '/';
    n := if found then k else leftLen;
    for i := 0 to n
      invariant forall j :: 0 <= j < i ==> nextToken[j] == left[j]
    {
      nextToken[i] := left[i];
    }
    nextToken[n] := NUL;
  }

  /** Moves `count` bytes from behind the slash to the front. */
  method MoveDown(left: array<char>, k: nat, count: nat, ghost text: string)
    requires k < |text| && Holds(left, text) && k + 1 + count <= left.Length && |text| - k <= count
    modifies left
    ensures Holds(left, text[k + 1..])
  {
    for i := 0 to count
      invariant forall j :: 0 <= j < i ==> left[j] == old(left[k + 1 + j])
      invariant forall j :: i <= j < left.Length ==> left[j] == old(left[j])
    {
      left[i] := left[k + 1 + i];
    }
  }

  /** Takes the next token off `left`. The returned `left_len` still counts the consumed
      slash, so it bounds the rest with slack and is zero exactly when no token is left.
      `end` is where the bytes that the source moves down end: behind the buffer when
      `left_len` is `PATH_MAX` - 1. What such a move would bring in lands behind the
      terminator, and the move here stops at the end of the buffer. */
  method TakeToken(left: array<char>, leftLen: nat, nextToken: array<char>, ghost text: string)
    returns (found: bool, newLen: nat, ghost end: nat)
    requires left != nextToken && left.Length == nextToken.Length
    requires Holds(left, text) && |text| <= leftLen < left.Length && leftLen > 0
    modifies left, nextToken
    ensures found == (FirstSlash(text) < |text|)
    ensures Holds(nextToken, text[..FirstSlash(text)])
    ensures Holds(left, if found then Rest(text) else text)
    ensures found ==> |Rest(text)| < newLen == leftLen - FirstSlash(text)
    ensures !found ==> newLen == 0
    ensures end == if found then leftLen + 2 else 0
    ensures end > left.Length <==> found && leftLen == left.Length - 1
  {
    var n;
    found, n := CopyToken(left, leftLen, nextToken, text);
    newLen := leftLen - n;
    end := 0;
    if found {
      var from, count := n + 1, newLen + 1;
      end := from + count;
      MoveDown(left, n, if from + count <= left.Length then count else left.Length - from, text);
    }
  }

  /** Drops the last character, then cuts behind the last slash that is left. */
  method Strip(resolved: array<char>, len: nat, ghost text: string) returns (newLen: nat)
    requires Holds(resolved, text) && |text| == len > 1 && text[0] == '/'
    modifies resolved
    ensures newLen == |StripLast(text)| && Holds(resolved, StripLast(text))
  {
    resolved[len - 1] := NUL;
    var q := len - 2;
    while resolved[q] != '/'
      invariant q <= len - 2 && forall i :: q < i < len - 1 ==> text[i] != '/'
      decreases q
    {
      q := q - 1;
    }
    ghost var d := text[..len - 1];
    assert d[q] == '/' && LastSlash(d) == q;
    resolved[q + 1] := NUL;
    newLen := q + 1;
  }

  method AppendSlash(a: array<char>, n: nat, ghost text: string)
    requires Holds(a, text) && |text| == n && n + 1 < a.Length
    modifies a
    ensures Holds(a, text + "/")
  {
    a[n] := '/';
    a[n + 1] := NUL;
  }

  /** Puts the expanded link text into `left`, by way of the `symlink` buffer. */
  method SpliceLink(left: array<char>, symlink: array<char>, t: string, found: bool, ghost rest: string)
    returns (ok: bool, leftLen: nat)
    requires left != symlink && left.Length == symlink.Length > 0
    requires Holds(symlink, t) && t != ""
    requires found ==> Holds(left, rest)
    modifies left, symlink
    ensures ok == Spliced(t, rest, found, left.Length).Some?
    ensures ok ==> Holds(left, Spliced(t, rest, found, left.Length).value)
    ensures ok ==> leftLen == |Spliced(t, rest, found, left.Length).value|
  {
    var slen, size := |t|, left.Length;
    ghost var next := t;
    leftLen := 0;
    if found {
      if symlink[slen - 1] != '/' {
        if slen + 1 >= size {
          return false, 0;
        }
        AppendSlash(symlink, slen, t);
        next := t + "/";
      }
      var restLen := StrLen(left, rest);
      assert left[..restLen] == rest;
      leftLen := Strlcat(symlink, left[..restLen], size, next);
      if leftLen >= size {
        return false, 0;
      }
      next := next + rest;
    }
    var n := StrLen(symlink, next);
    assert symlink[..n] == next;
    leftLen := Strlcpy(left, 0, symlink[..n], size);
    assert HoldsAt(left, 0, next);
    ok := true;
  }

  /** Cuts `resolved` back to where the link text is to be read. */
  method DropLink(resolved: array<char>, len: nat, absolute: bool, ghost full: string) returns (newLen: nat)
    requires Holds(resolved, full) && 1 < |full| == len && full[0] == '/'
    modifies resolved
    ensures var text := if absolute then "/" else StripLast(full); Holds(resolved, text) && newLen == |text|
  {
    if absolute {
      resolved[1] := NUL;
      newLen := 1;
    } else {
      newLen := Strip(resolved, len, full);
    }
  }

  /** The link round on the buffers. */
  method LinkStep(env: Env, resolved: array<char>, len: nat, left: array<char>, symlink: array<char>, found: bool,
                  links: nat, ghost full: string, ghost rest: string)
    returns (o: Option<Outcome>, newLen: nat, leftLen: nat, newLinks: nat, ghost round: Round)
    requires env.Valid() && left.Length == symlink.Length == env.pathMax
    requires left != symlink && resolved != left && resolved != symlink
    requires Holds(resolved, full) && 1 < |full| == len < env.pathMax && full[0] == '/'
    requires found ==> Holds(left, rest)
    modifies resolved, left, symlink
    ensures round == LinkRound(env, full, rest, found, links)
    ensures round.Go? ==> leftLen == |round.left|
    ensures Shows(env, resolved, left, newLen, leftLen, newLinks, o, round)
  {
    newLen, leftLen, newLinks := len, 0, links + 1;
    round := LinkRound(env, full, rest, found, links);
    var name := resolved[..len];
    assert name == full;
    if links > env.maxSymlinks {
      o := Some(Failed(ELOOP, name));
      return;
    }
    var link := env.ReadLink(name);
    if link.NoLink? {
      o := Some(Failed(link.errno, name));
      return;
    }
    assert env.readlink(name).text != "" && NoNul(env.readlink(name).text);
    var slen := Strlcpy(symlink, 0, link.text, env.pathMax);
    assert HoldsAt(symlink, 0, link.text);
    newLen := DropLink(resolved, len, symlink[0] == '/', full);
    var ok;
    ok, leftLen := SpliceLink(left, symlink, link.text, found, rest);
    o := if ok then None else Some(Refused(ENAMETOOLONG));
  }

  /** The buffers and lengths show what a round computed. A failure leaves the path that
      caused it in `resolved`. */
  ghost predicate Shows(env: Env, resolved: array<char>, left: array<char>, len: nat, leftLen: nat, symlinks: nat,
                        o: Option<Outcome>, round: Round)
    reads resolved, left
  {
    match round
    case Stop(r) => o == Some(r) && (r.Failed? ==> Holds(resolved, r.at)) && !r.Resolved?
    case Go(r, l, more, links) =>
      && o.None? && links == symlinks
      && Holds(resolved, r) && |r| == len < env.pathMax
      && (more ==> Holds(left, l) && |l| <= leftLen < env.pathMax)
      && more == (leftLen != 0)
  }

  /** The round for one token on the buffers. */
  method TokenStep(env: Env, resolved: array<char>, len: nat, left: array<char>, leftLength: nat, symlink: array<char>,
                   token: string, found: bool, links: nat, ghost dir: string, ghost rest: string)
    returns (o: Option<Outcome>, newLen: nat, leftLen: nat, newLinks: nat, ghost round: Round)
    requires env.Valid() && left.Length == symlink.Length == env.pathMax <= resolved.Length
    requires left != symlink && resolved != left && resolved != symlink
    requires Holds(resolved, dir) && 0 < |dir| == len < env.pathMax && dir[0] == '/'
    requires NoNul(token)
    requires found ==> Holds(left, rest) && |rest| <= leftLength < env.pathMax
    requires found == (leftLength != 0)
    modifies resolved, left, symlink
    ensures round == TokenRound(env, dir, token, rest, found, links)
    ensures round.Go? ==> leftLen == if round.links == links then leftLength else |round.left|
    ensures Shows(env, resolved, left, newLen, leftLen, newLinks, o, round)
  {
    newLen, leftLen, newLinks, o := len, leftLength, links, None;
    round := TokenRound(env, dir, token, rest, found, links);
    if token == "" {
      var name := resolved[..len];
      assert name == dir;
      match env.lstat(name)
      case NoStat(e) => o := Some(Failed(e, name));
      case Directory =>
      case Symlink => o := Some(Failed(ENOTDIR, name));
      case OtherFile => o := Some(Failed(ENOTDIR, name));
    } else if token == "." {
    } else if token == ".." {
      if len > 1 {
        newLen := Strip(resolved, len, dir);
      }
    } else {
      newLen := Strlcat(resolved, token, env.pathMax, dir);
      if newLen >= env.pathMax {
        o := Some(Refused(ENAMETOOLONG));
        return;
      }
      ghost var full := dir + token;
      var name := resolved[..newLen];
      assert name == full;
      match env.lstat(name)
      case NoStat(e) => o := Some(Failed(e, name));
      case Directory =>
      case OtherFile =>
      case Symlink =>
        o, newLen, leftLen, newLinks, round := LinkStep(env, resolved, newLen, left, symlink, found, links, full, rest);
    }
  }

  /** One round of the loop on the buffers. */
  method RoundStep(env: Env, resolved: array<char>, len: nat, left: array<char>, leftLength: nat,
                   nextToken: array<char>, symlink: array<char>, links: nat, ghost r: string, ghost l: string)
    returns (o: Option<Outcome>, newLen: nat, leftLen: nat, newLinks: nat, ghost round: Round, ghost behind: bool)
    requires env.Valid() && left.Length == symlink.Length == nextToken.Length == env.pathMax <= resolved.Length
    requires left != symlink && resolved != left && resolved != symlink
    requires nextToken != left && nextToken != symlink && nextToken != resolved
    requires Holds(resolved, r) && 0 < |r| == len < env.pathMax && r[0] == '/'
    requires Holds(left, l) && |l| <= leftLength < env.pathMax && leftLength > 0
    modifies resolved, left, symlink, nextToken
    ensures round == OneRound(env, r, l, links) && behind == ReadsBehind(env, l, leftLength)
    ensures round.Go? ==> leftLen == NextLen(l, leftLength, links, round)
    ensures Shows(env, resolved, left, newLen, leftLen, newLinks, o, round)
  {
    hide TokenRound, FirstSlash, StripLast;
    newLen, newLinks, o := len, links, None;
    round := OneRound(env, r, l, links);
    var found;
    ghost var end;
    found, leftLen, end := TakeToken(left, leftLength, nextToken, l);
    behind := end > left.Length;
    if resolved[len - 1] != '/' {
      if len + 1 >= env.pathMax {
        o := Some(Refused(ENAMETOOLONG));
        return;
      }
      AppendSlash(resolved, len, r);
      newLen := len + 1;
    }
    ghost var token := l[..FirstSlash(l)];
    var tokenLen := StrLen(nextToken, token);
    assert nextToken[..tokenLen] == token;
    o, newLen, leftLen, newLinks, round :=
      TokenStep(env, resolved, newLen, left, leftLen, symlink, nextToken[..tokenLen], found, links,
                Slashed(r), Rest(l));
  }

  /** The resolver loop on the buffers: it computes `Loop`, follows at most
      `MAXSYMLINKS + 1` links, and ends because every round uses up a link or text. `behind`
      is whether some move of the source reads behind `left`. */
  method Resolve(env: Env, resolved: array<char>, len: nat, left: array<char>, leftLength: nat,
                 ghost start: string, ghost path: string)
    returns (o: Outcome, symlinks: nat, ghost behind: bool)
    requires env.Valid() && left.Length == env.pathMax <= resolved.Length && resolved != left
    requires Holds(resolved, start) && 0 < |start| == len < env.pathMax && start[0] == '/'
    requires Holds(left, path) && 0 < |path| == leftLength < env.pathMax
    modifies resolved, left
    ensures o == Loop(env, start, path, true, 0) && behind == Overreads(env, start, path, |path|, true, 0)
    ensures o.Resolved? ==> Holds(resolved, o.path)
    ensures o.Failed? ==> Holds(resolved, o.at)
    ensures symlinks <= env.maxSymlinks + 1
  {
    hide OneRound, Render, NextLen, ReadsBehind;
    var nextToken := new char[env.pathMax];
    var symlink := new char[env.pathMax];
    var resolvedLen, leftLen := len, leftLength;
    ghost var r, l := start, path;
    symlinks, behind := 0, false;
    while leftLen != 0
      invariant Holds(resolved, r) && 0 < |r| == resolvedLen < env.pathMax && r[0] == '/'
      invariant leftLen != 0 ==> Holds(left, l) && |l| <= leftLen < env.pathMax
      invariant symlinks <= env.maxSymlinks + 1
      invariant Loop(env, r, l, leftLen != 0, symlinks) == Loop(env, start, path, true, 0)
      invariant behind || Overreads(env, r, l, leftLen, leftLen != 0, symlinks) <==>
                Overreads(env, start, path, |path|, true, 0)
      decreases env.maxSymlinks + 1 - symlinks, if leftLen != 0 then |l| + 1 else 0
    {
      var stop, links;
      ghost var round, here;
      stop, resolvedLen, leftLen, links, round, here :=
        RoundStep(env, resolved, resolvedLen, left, leftLen, nextToken, symlink, symlinks, r, l);
      behind := behind || here;
      if stop.Some? {
        return stop.value, symlinks, behind;
      }
      symlinks, r, l := links, round.resolved, round.left;
    }
    if resolvedLen > 1 && resolved[resolvedLen - 1] == '/' {
      resolvedLen := resolvedLen - 1;
      resolved[resolvedLen] := NUL;
    }
    assert resolved[..resolvedLen] == Unslashed(r);
    o := Resolved(resolved[..resolvedLen]);
  }

  /** `realpath` as a whole: NULL arguments, allocation of the result buffer when the
      caller passes none, and the early exits. `memory` is whether `malloc` succeeds. */
  method Run(env: Env, path: Option<string>, buffer: array?<char>, memory: bool)
    returns (o: Outcome, result: array?<char>, ghost behind: bool)
    requires env.Valid() && (path.Some? ==> NoNul(path.value))
    requires buffer != null ==> buffer.Length >= env.pathMax
    modifies if buffer == null then {} else {buffer}
    ensures path.None? ==> o == Refused(EINVAL)
    ensures path.Some? && path.value != "" && buffer == null && !memory ==> o == Refused(ENOMEM)
    ensures path.Some? && (path.value == "" || buffer != null || memory) ==>
      o == Spec(env, path.value) && behind == CallOverreads(env, path.value)
    ensures result != null <==> o.Resolved?
    ensures result != null ==> Holds(result, o.path) && (buffer != null ==> result == buffer)
    ensures buffer != null && o.Failed? ==> Holds(buffer, o.at)
  {
    hide Loop, Overreads, Render;
    result, behind := null, false;
    if path.None? {
      return Refused(EINVAL), null, false;
    }
    var p := path.value;
    if p == "" {
      return Refused(ENOENT), null, false;
    }
    var resolved: array<char>;
    if buffer != null {
      resolved := buffer;
    } else if memory {
      resolved := new char[env.pathMax];
    } else {
      return Refused(ENOMEM), null, false;
    }
    var left := new char[env.pathMax];
    ghost var start := "/";
    var resolvedLen, leftLen := 1, 0;
    if p[0] == '/' {
      resolved[0] := '/';
      resolved[1] := NUL;
      if p == "/" {
        return Resolved("/"), resolved, false;
      }
      leftLen := Strlcpy(left, 0, p[1..], env.pathMax);
    } else {
      match env.cwd
      case NoCwd(e) =>
        resolved[0] := '.';
        resolved[1] := NUL;
        return Failed(e, "."), null, false;
      case CwdAt(names) =>
        start := Render(names);
        resolvedLen := Strlcpy(resolved, 0, Render(names), env.pathMax);
        leftLen := Strlcpy(left, 0, p, env.pathMax);
    }
    if leftLen >= env.pathMax || resolvedLen >= env.pathMax {
      return Refused(ENAMETOOLONG), null, false;
    }
    ghost var text := if p[0] == '/' then p[1..] else p;
    assert HoldsAt(left, 0, text);
    var links;
    o, links, behind := Resolve(env, resolved, resolvedLen, left, leftLen, start, text);
    if o.Resolved? {
      result := resolved;
    }
  }
}
