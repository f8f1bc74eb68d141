/**
 * C strings as the gateway handles them: character sequences that end at
 * the first NUL, copied into fixed-size arrays with `strncpy` and trimmed
 * with `isspace`.
 */
module CStrings {
  const Nul: char := '\0'

  /** `isspace` in the C locale: space, tab, newline, vertical tab, form feed, carriage return. */
  predicate IsSpace(c: char) {
    c == ' ' || c == '\t' || c == '\n' || c == '\U{B}' || c == '\U{C}' || c == '\r'
  }

  /** The C string stored in `s`: everything before the first NUL. */
  function CStr(s: seq<char>): (r: seq<char>)
    ensures |r| <= |s| && r == s[..|r|] && Nul !in r
    ensures |r| < |s| ==> s[|r|] == Nul
  {
    if s == [] || s[0] == Nul then [] else [s[0]] + CStr(s[1..])
  }

  /** A C string that is already NUL-free is its own content. */
  lemma {:induction false} CStrOfPlain(s: seq<char>)
    requires Nul !in s
    ensures CStr(s) == s
  {
    if s != [] {
      CStrOfPlain(s[1..]);
    }
  }

  /** The C string in `s + t` when `s` holds no NUL and `t` starts with one. */
  lemma CStrTerminated(s: seq<char>, t: seq<char>)
    requires Nul !in s && t != [] && t[0] == Nul
    ensures CStr(s + t) == s
  {
    var u := s + t;
    assert forall k :: 0 <= k < |s| ==> u[k] == s[k] && u[k] != Nul;
    assert u[|s|] == Nul && u[..|s|] == s;
  }

  /** Padding a buffer with NULs does not change its C string. */
  lemma {:induction false} CStrPadded(s: seq<char>, t: seq<char>)
    requires t != [] && t[0] == Nul
    ensures CStr(s + t) == CStr(s)
  {
    if s != [] && s[0] != Nul {
      assert (s + t)[1..] == s[1..] + t;
      CStrPadded(s[1..], t);
    }
  }

  /** A buffer that holds a NUL holds its C string strictly before its end. */
  lemma CStrBound(s: seq<char>)
    requires Nul in s
    ensures |CStr(s)| < |s| && s[|CStr(s)|] == Nul
  {}

  /** The C string of a buffer whose first NUL is at `k`. */
  lemma CStrAt(s: seq<char>, k: nat)
    requires k < |s| && s[k] == Nul && Nul !in s[..k]
    ensures CStr(s) == s[..k]
  {
    assert s == s[..k] + s[k..];
    CStrTerminated(s[..k], s[k..]);
  }

  /** The C string that starts `k` characters into a buffer, for `k` within the first string. */
  lemma CStrSuffix(s: seq<char>, k: nat)
    requires Nul in s && k <= |CStr(s)|
    ensures CStr(s[k..]) == CStr(s)[k..]
  {
    var c := CStr(s);
    CStrBound(s);
    assert s[k..][|c| - k] == Nul;
    assert s[k..][..|c| - k] == c[k..];
    CStrAt(s[k..], |c| - k);
  }

  /**
   * `strncpy(dst, src, n)` into a zeroed or explicitly terminated array of
   * `n + 1` characters: the first `n` characters of `src`, or all of it.
   */
  function Prefix(src: seq<char>, n: nat): (r: seq<char>)
    ensures |r| == if |src| < n then |src| else n
    ensures r == src[..|r|]
  {
    if |src| <= n then src else src[..n]
  }

  /** Leading whitespace removed. */
  function TrimLeft(s: seq<char>): (r: seq<char>)
    ensures |r| <= |s| && r == s[|s| - |r|..]
    ensures forall i :: 0 <= i < |s| - |r| ==> IsSpace(s[i])
    ensures r != [] ==> !IsSpace(r[0])
  {
    if s != [] && IsSpace(s[0]) then TrimLeft(s[1..]) else s
  }

  /** Trailing whitespace removed. */
  function TrimRight(s: seq<char>): (r: seq<char>)
    ensures |r| <= |s| && r == s[..|r|]
    ensures forall i :: |r| <= i < |s| ==> IsSpace(s[i])
    ensures r != [] ==> !IsSpace(r[|r| - 1])
  {
    if s != [] && IsSpace(s[|s| - 1]) then TrimRight(s[..|s| - 1]) else s
  }

  /** Leading and trailing whitespace removed, as `trim_lr` does. */
  function Trim(s: seq<char>): seq<char> {
    TrimRight(TrimLeft(s))
  }

  /** `t` occurs in `s` at offset `i`. */
  predicate OccursAt(t: seq<char>, s: seq<char>, i: int) {
    0 <= i <= |s| - |t| && t == s[i..i + |t|]
  }

  /** The trimmed string is a contiguous piece of the input with no whitespace at either end. */
  lemma TrimShape(s: seq<char>)
    ensures var t := Trim(s);
            (exists i :: OccursAt(t, s, i))
            && (t != [] ==> !IsSpace(t[0]) && !IsSpace(t[|t| - 1]))
  {
    var l := TrimLeft(s);
    var t := TrimRight(l);
    var i := |s| - |l|;
    assert t == l[..|t|] && l == s[i..];
    assert s[i..][..|t|] == s[i..i + |t|];
    assert OccursAt(t, s, i);
    assert Trim(s) == t;
    if t != [] {
      assert t[0] == l[0];
    }
  }

  /** Trimming twice is trimming once. */
  lemma TrimIdempotent(s: seq<char>)
    ensures Trim(Trim(s)) == Trim(s)
  {
    var t := Trim(s);
    TrimShape(s);
    assert TrimLeft(t) == t;
    assert TrimRight(t) == t;
  }

  /** A string with no whitespace at either end is left alone. */
  lemma TrimKeeps(s: seq<char>)
    requires s != [] ==> !IsSpace(s[0]) && !IsSpace(s[|s| - 1])
    ensures Trim(s) == s
  {}

  /** `strchr`: the index of the first `c` in `s`, if any. */
  function IndexOf(s: seq<char>, c: char): (i: int)
    ensures -1 <= i < |s|
    ensures i == -1 <==> c !in s
    ensures i >= 0 ==> s[i] == c && c !in s[..i]
  {
    if s == [] then -1
    else if s[0] == c then 0
    else
      var j := IndexOf(s[1..], c);
      if j == -1 then -1
      else
        assert s[..j + 1] == [s[0]] + s[1..][..j];
        j + 1
  }
}
