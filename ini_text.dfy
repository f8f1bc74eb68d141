/**
 * The in-place string helpers of `ini.c`: `trim_lr`, `strip_inline_comment`,
 * `safe_strcpy` and the `sscanf` that reads a section name. Each works on a
 * character buffer holding a C string and is specified by what it leaves
 * as that buffer's C string.
 */
module IniText {
  import opened CStrings

  /** `strlen`. */
  method Strlen(s: array<char>) returns (n: nat)
    requires Nul in s[..]
    ensures n == |CStr(s[..])| && n < s.Length
  {
    ghost var c := CStr(s[..]);
    CStrBound(s[..]);
    n := 0;
    while s[n] != Nul
      invariant n <= |c|
      invariant c[..n] == s[..n]
      decreases |c| - n
    {
      n := n + 1;
    }
  }

  /** `strchr(s, ch)` as an index, -1 for NULL. */
  method Strchr(s: array<char>, ch: char) returns (i: int)
    requires Nul in s[..] && ch != Nul
    ensures i == IndexOf(CStr(s[..]), ch)
  {
    ghost var c := CStr(s[..]);
    CStrBound(s[..]);
    assert forall j :: 0 <= j < |c| ==> s[j] == c[j];
    i := 0;
    while s[i] != Nul && s[i] != ch
      invariant 0 <= i <= |c|
      invariant ch !in c[..i]
      decreases |c| - i
    {
      assert c[..i + 1] == c[..i] + [c[i]];
      i := i + 1;
    }
    if s[i] == Nul {
      assert i == |c| && c[..i] == c;
      i := -1;
    } else {
      FirstIndex(c, ch, i);
    }
  }

  /** The first occurrence is the one `strchr` finds. */
  lemma FirstIndex(s: seq<char>, ch: char, i: nat)
    requires i < |s| && s[i] == ch && ch !in s[..i]
    ensures IndexOf(s, ch) == i
  {}

  /** `memmove(s, s + p, n - p + 1)`: the characters from `p` to the NUL at `n` move to the front. */
  method ShiftLeft(s: array<char>, p: nat, n: nat)
    requires p <= n < s.Length
    modifies s
    ensures s[..n - p + 1] == old(s[p..n + 1])
    ensures s[n - p + 1..] == old(s[n - p + 1..])
  {
    var k := 0;
    while k <= n - p
      invariant 0 <= k <= n - p + 1
      invariant forall i :: 0 <= i < k ==> s[i] == old(s[i + p])
      invariant forall i :: k <= i < s.Length ==> s[i] == old(s[i])
    {
      s[k] := s[k + p];
      k := k + 1;
    }
  }

  /** After the move, the buffer's C string is the old one from `p` on. */
  lemma ShiftedCStr(s0: seq<char>, s1: seq<char>, p: nat, n: nat)
    requires Nul in s0 && n == |CStr(s0)| && p <= n && |s1| == |s0|
    requires s1[..n - p + 1] == s0[p..n + 1]
    ensures Nul in s1 && CStr(s1) == CStr(s0)[p..]
  {
    CStrBound(s0);
    var c := CStr(s0);
    assert s0[p..n + 1] == c[p..] + [Nul];
    assert s1[..n - p] == c[p..];
    assert s1[n - p] == Nul;
    CStrAt(s1, n - p);
  }

  /** Skipping one leading space does not change the left-trimmed string. */
  lemma TrimLeftSkip(c: seq<char>, p: nat)
    requires p < |c| && IsSpace(c[p])
    ensures TrimLeft(c[p..]) == TrimLeft(c[p + 1..])
  {
    assert c[p..][1..] == c[p + 1..];
  }

  /** A string that does not start with a space is its own left trim. */
  lemma TrimLeftStop(c: seq<char>)
    requires c == [] || !IsSpace(c[0])
    ensures TrimLeft(c) == c
  {}

  /** The count of leading spaces of the buffer's C string. */
  method SkipSpaces(s: array<char>) returns (p: nat, n: nat)
    requires Nul in s[..]
    ensures n == |CStr(s[..])| && n < s.Length && p <= n
    ensures TrimLeft(CStr(s[..])) == CStr(s[..])[p..]
  {
    ghost var c := CStr(s[..]);
    n := Strlen(s);
    assert s[..n] == c;
    p := 0;
    while p < n && IsSpace(s[p])
      invariant p <= n
      invariant TrimLeft(c[p..]) == TrimLeft(c)
      decreases n - p
    {
      assert s[p] == c[p];
      TrimLeftSkip(c, p);
      p := p + 1;
    }
    assert p < n ==> c[p..][0] == s[p];
    TrimLeftStop(c[p..]);
  }

  /** The leading-whitespace half of `trim_lr`: skip, then move the rest and its NUL to the front. */
  method TrimLeftInPlace(s: array<char>)
    requires Nul in s[..]
    modifies s
    ensures Nul in s[..]
    ensures CStr(s[..]) == TrimLeft(CStr(old(s[..])))
  {
    var p, n := SkipSpaces(s);
    if p != 0 {
      ghost var s0 := s[..];
      ShiftLeft(s, p, n);
      ShiftedCStr(s0, s[..], p, n);
    }
  }

  /** The trailing-whitespace half of `trim_lr`: overwrite trailing whitespace with NULs. */
  method TrimRightInPlace(s: array<char>)
    requires Nul in s[..]
    modifies s
    ensures Nul in s[..]
    ensures CStr(s[..]) == TrimRight(CStr(old(s[..])))
  {
    ghost var c := CStr(s[..]);
    var len := Strlen(s);
    assert s[..len] == c;
    while len > 0 && IsSpace(s[len - 1])
      invariant len <= |c|
      invariant len < s.Length
      invariant s[..len] == c[..len]
      invariant s[len] == Nul
      invariant TrimRight(c[..len]) == TrimRight(c)
      decreases len
    {
      assert c[..len][..len - 1] == c[..len - 1];
      s[len - 1] := Nul;
      len := len - 1;
    }
    assert TrimRight(c[..len]) == c[..len];
    CStrAt(s[..], len);
  }

  /** `trim_lr`: the buffer's C string loses its leading and trailing whitespace. */
  method TrimLR(s: array<char>)
    requires Nul in s[..]
    modifies s
    ensures Nul in s[..]
    ensures CStr(s[..]) == Trim(CStr(old(s[..])))
  {
    TrimLeftInPlace(s);
    TrimRightInPlace(s);
  }

  /** What `strip_inline_comment` leaves: cut at the first `;`, or else at the first `#`, and trim; unchanged without either. */
  function StripComment(v: string): string {
    var i := IndexOf(v, ';');
    if i >= 0 then Trim(v[..i])
    else
      var j := IndexOf(v, '#');
      if j >= 0 then Trim(v[..j]) else v
  }

  /** Writing a NUL at `k` within the C string cuts it there. */
  lemma CutAt(s: seq<char>, k: nat)
    requires Nul in s && k <= |CStr(s)|
    ensures CStr(s[k := Nul]) == CStr(s)[..k]
  {
    CStrBound(s);
    var t := s[k := Nul];
    assert t[..k] == CStr(s)[..k];
    CStrAt(t, k);
  }

  /** `strip_inline_comment`. */
  method StripInlineComment(s: array<char>)
    requires Nul in s[..]
    modifies s
    ensures Nul in s[..]
    ensures CStr(s[..]) == StripComment(CStr(old(s[..])))
  {
    ghost var c := CStr(s[..]);
    var p := Strchr(s, ';');
    if p >= 0 {
      CutAt(s[..], p);
      s[p] := Nul;
      TrimLR(s);
      return;
    }
    p := Strchr(s, '#');
    if p >= 0 {
      CutAt(s[..], p);
      s[p] := Nul;
      TrimLR(s);
      return;
    }
  }

  /** Trimming the text before a cut gives a piece of the whole that holds only characters from before the cut. */
  lemma TrimmedCut(v: string, i: nat)
    requires i <= |v|
    ensures exists k :: OccursAt(Trim(v[..i]), v, k)
    ensures forall x :: x in Trim(v[..i]) ==> x in v[..i]
  {
    var t := Trim(v[..i]);
    TrimShape(v[..i]);
    var k :| OccursAt(t, v[..i], k);
    assert v[..i][k..k + |t|] == v[k..k + |t|];
    assert OccursAt(t, v, k);
  }

  /**
   * The stripped value is a piece of the input that holds no `;`, and no
   * `#` either when the input held no `;`. Only the first marker counts:
   * a `#` before a `;` survives.
   */
  lemma StripCommentProperties(v: string)
    ensures exists i :: OccursAt(StripComment(v), v, i)
    ensures ';' !in StripComment(v)
    ensures ';' !in v ==> '#' !in StripComment(v)
    ensures ';' !in v && '#' !in v ==> StripComment(v) == v
  {
    var i := IndexOf(v, ';');
    if i >= 0 {
      assert StripComment(v) == Trim(v[..i]);
      TrimmedCut(v, i);
    } else {
      var j := IndexOf(v, '#');
      if j >= 0 {
        assert StripComment(v) == Trim(v[..j]);
        TrimmedCut(v, j);
        assert ';' !in v[..j];
      } else {
        assert StripComment(v) == v;
        assert OccursAt(v, v, 0);
      }
    }
  }

  /** The example of the comment rule: `a#b;c` keeps its `#`. */
  lemma StripCommentExample()
    ensures StripComment("a#b;c") == "a#b"
  {
    var v := "a#b;c";
    var w := "a#b";
    assert v[..3] == w;
    assert ';' !in w;
    FirstIndex(v, ';', 3);
    TrimKeeps(w);
  }

  /** The buffer `strncpy(dst, src, n - 1)` followed by `dst[n - 1] = 0` leaves in an `n`-character array. */
  function Padded(t: string, n: nat): (r: seq<char>)
    requires |t| < n
    ensures |r| == n && r[..|t|] == t
    ensures forall i :: |t| <= i < n ==> r[i] == Nul
  {
    t + seq(n - |t|, _ => Nul)
  }

  /**
   * `safe_strcpy(dst, src, sizeof dst)`: at most `sizeof dst - 1`
   * characters of the source's C string, the rest of the array zeroed. A
   * zero-sized destination is left alone.
   */
  method SafeStrcpy(dst: array<char>, src: seq<char>)
    modifies dst
    ensures dst.Length == 0 ==> dst[..] == old(dst[..])
    ensures dst.Length > 0 ==> dst[..] == Padded(Prefix(CStr(src), dst.Length - 1), dst.Length)
  {
    if dst.Length == 0 {
      return;
    }
    ghost var t := Prefix(CStr(src), dst.Length - 1);
    var k := 0;
    while k < dst.Length - 1 && k < |src| && src[k] != Nul
      invariant k <= |t|
      invariant dst[..k] == t[..k]
      decreases dst.Length - k
    {
      dst[k] := src[k];
      k := k + 1;
    }
    assert k == |t|;
    while k < dst.Length
      invariant |t| <= k <= dst.Length
      invariant dst[..|t|] == t
      invariant forall i :: |t| <= i < k ==> dst[i] == Nul
    {
      dst[k] := Nul;
      k := k + 1;
    }
    assert dst[..] == Padded(t, dst.Length);
  }

  /** The C string a `safe_strcpy` leaves: the source's, cut to the capacity. */
  lemma SafeStrcpyString(t: string, n: nat)
    requires Nul !in t && |t| < n
    ensures Nul in Padded(t, n) && CStr(Padded(t, n)) == t
  {
    CStrAt(Padded(t, n), |t|);
  }

  /** The text before the first `]` of `s`, or all of `s`. */
  function UpTo(s: string, c: char): (r: string)
    ensures |r| <= |s| && r == s[..|r|] && c !in r
  {
    var i := IndexOf(s, c);
    if i >= 0 then s[..i] else s
  }

  /** What `sscanf(line, "[%63[^]]", secname)` stores when it returns 1: up to 63 characters after `[`, stopping at `]`. Empty when it does not return 1. */
  function SectionText(line: string): (r: string)
    ensures |r| <= 63 && ']' !in r
  {
    if line == [] || line[0] != '[' then [] else Prefix(UpTo(line[1..], ']'), 63)
  }

  /** Where the copy loop stops determines the scanned text. */
  lemma SectionTextIs(c: string, k: nat)
    requires c != [] && c[0] == '[' && k + 1 <= |c| && k <= 63
    requires ']' !in c[1..k + 1]
    requires k == 63 || k + 1 == |c| || c[k + 1] == ']'
    ensures SectionText(c) == c[1..k + 1]
  {
    var t := c[1..];
    assert t[..k] == c[1..k + 1];
    if k + 1 == |c| {
      assert t == t[..k];
    } else if c[k + 1] == ']' {
      FirstIndex(t, ']', k);
    }
  }

  /**
   * The section scan: copies the characters after `[` into a fresh zeroed
   * 64-character array, and answers 1 exactly when at least one was copied.
   * Every other outcome is 0: `sscanf` answers EOF for a line that ends
   * right after `[`, but the loader only asks whether the answer is 1.
   */
  method ScanSection(line: array<char>) returns (n: int, secname: array<char>)
    requires Nul in line[..]
    ensures fresh(secname) && secname.Length == 64 && Nul in secname[..]
    ensures n == 1 <==> SectionText(CStr(line[..])) != []
    ensures n == 1 || n == 0
    ensures CStr(secname[..]) == SectionText(CStr(line[..]))
  {
    ghost var c := CStr(line[..]);
    CStrBound(line[..]);
    assert forall j :: 0 <= j < |c| ==> line[j] == c[j];
    secname := new char[64](_ => Nul);
    if line[0] != '[' {
      CStrAt(secname[..], 0);
      return 0, secname;
    }
    var k := CopyName(line, secname, c);
    SectionTextIs(c, k);
    assert Nul !in c[1..k + 1];
    CStrAt(secname[..], k);
    n := if k > 0 then 1 else 0;
  }

  /** The copy loop of the `[%63[^]]` conversion: characters after the `[` up to the first `]` or NUL, at most 63. */
  method CopyName(line: array<char>, secname: array<char>, ghost c: string) returns (k: nat)
    requires line != secname && secname.Length == 64
    requires c == CStr(line[..]) && |c| < line.Length && line[0] == '['
    requires forall j :: 0 <= j < |c| ==> line[j] == c[j]
    requires line[|c|] == Nul
    requires forall i :: 0 <= i < 64 ==> secname[i] == Nul
    modifies secname
    ensures k <= 63 && k + 1 <= |c|
    ensures secname[..k] == c[1..k + 1] && ']' !in c[1..k + 1]
    ensures forall i :: k <= i < 64 ==> secname[i] == Nul
    ensures k < 63 ==> k + 1 == |c| || c[k + 1] == ']'
  {
    k := 0;
    while k < 63 && line[k + 1] != Nul && line[k + 1] != ']'
      invariant k + 1 <= |c|
      invariant secname[..k] == c[1..k + 1]
      invariant ']' !in c[1..k + 1]
      invariant forall i :: k <= i < 64 ==> secname[i] == Nul
      decreases 63 - k
    {
      secname[k] := line[k + 1];
      assert c[1..k + 2] == c[1..k + 1] + [c[k + 1]];
      k := k + 1;
    }
  }
}
