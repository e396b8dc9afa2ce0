/** NUL-terminated strings in fixed-size character buffers: `strlcpy` and
    `strlcat`, and the searches `strchr`/`strrchr` that `realpath` relies on. */
module CStrings {

  const NUL: char := '\0'

  ghost predicate NoNul(s: string)
  {
    forall i :: 0 <= i < |s| ==> s[i] != NUL
  }

  /** From offset `off` on, `a` holds exactly the C string `s`. */
  ghost predicate HoldsAt(a: array<char>, off: nat, s: string)
    reads a
  {
    && off + |s| < a.Length
    && (forall i :: 0 <= i < |s| ==> a[off + i] == s[i])
    && a[off + |s|] == NUL
    && NoNul(s)
  }

  ghost predicate Holds(a: array<char>, s: string)
    reads a
  {
    && |s| < a.Length
    && (forall i :: 0 <= i < |s| ==> a[i] == s[i])
    && a[|s|] == NUL
    && NoNul(s)
  }

  /** What a buffer with room for `len` bytes can keep of `s`. */
  function Truncated(s: string, len: nat): (r: string)
    requires len > 0
    ensures |r| < len && r <= s
    ensures |s| < len ==> r == s
  {
    if |s| < len then s else s[..len - 1]
  }

  method StrLen(a: array<char>, ghost s: string) returns (n: nat)
    requires Holds(a, s)
    ensures n == |s|
  {
    n := 0;
    while a[n] != NUL
      invariant n <= |s|
      decreases |s| - n
    {
      n := n + 1;
    }
  }

  /** Returns the length it tried to create, keeps the result terminated whenever `len > 0`,
      and writes nothing but the string it stores and its terminator. */
  method Strlcpy(dest: array<char>, off: nat, src: string, len: nat) returns (ret: nat)
    requires off + len <= dest.Length
    requires NoNul(src)
    modifies dest
    ensures ret == |src|
    ensures len > 0 ==> HoldsAt(dest, off, Truncated(src, len))
    ensures forall i :: 0 <= i < dest.Length && !(len > 0 && off <= i <= off + |Truncated(src, len)|) ==>
              dest[i] == old(dest[i])
  {
    ret := |src|;
    if len != 0 {
      var n := if ret < len then ret else len - 1;
      for i := 0 to n
        invariant forall j :: 0 <= j < i ==> dest[off + j] == src[j]
        invariant forall j :: 0 <= j < dest.Length && !(off <= j < off + i) ==> dest[j] == old(dest[j])
      {
        dest[off + i] := src[i];
      }
      dest[off + n] := NUL;
    }
  }

  /** `strlcat` measures the destination, then copies behind it. What the destination holds and
      what is behind the new terminator stays; a destination with no room is not written to. */
  method Strlcat(dest: array<char>, src: string, len: nat, ghost d: string) returns (ret: nat)
    requires Holds(dest, d) && NoNul(src) && len <= dest.Length
    modifies dest
    ensures ret == |d| + |src|
    ensures |d| < len ==> Holds(dest, Truncated(d + src, len))
    ensures forall i :: 0 <= i < dest.Length && !(|d| < len && |d| <= i <= |Truncated(d + src, len)|) ==>
              dest[i] == old(dest[i])
  {
    var dlen := StrLen(dest, d);
    var n := Strlcpy(dest, dlen, src, if len > dlen then len - dlen else 0);
    ret := dlen + n;
    if dlen < len {
      ghost var kept := Truncated(src, len - dlen);
      ghost var whole := Truncated(d + src, len);
      assert whole == d + kept;
      forall i | 0 <= i < |whole|
        ensures dest[i] == whole[i]
      {
        if dlen <= i { assert dest[dlen + (i - dlen)] == kept[i - dlen]; }
      }
      assert dest[dlen + |kept|] == NUL;
    }
  }
}
