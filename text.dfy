/** The JavaScript string operations the matching engine relies on:
    String.prototype.trim, toUpperCase (restricted to ASCII letters),
    substring(0, n) and includes. */
module Text {

  /** The code points `trim` removes: ECMAScript WhiteSpace (tab, vertical tab,
      form feed, space, no-break space, the byte order mark and the Zs
      category) and LineTerminator (LF, CR, LS, PS). */
  predicate IsTrimmable(c: char)
  {
    var n := c as int;
    n == 0x09 || n == 0x0A || n == 0x0B || n == 0x0C || n == 0x0D || n == 0x20 ||
    n == 0xA0 || n == 0x1680 || (0x2000 <= n <= 0x200A) || n == 0x2028 ||
    n == 0x2029 || n == 0x202F || n == 0x205F || n == 0x3000 || n == 0xFEFF
  }

  /** `needle` occurs in `hay` starting at index `i`. */
  predicate OccursAt(hay: string, needle: string, i: int)
  {
    0 <= i && i + |needle| <= |hay| && hay[i..i + |needle|] == needle
  }

  /** `needle` is a contiguous substring of `hay`. */
  ghost predicate IsSubstring(needle: string, hay: string)
  {
    exists i :: OccursAt(hay, needle, i)
  }

  /** `hay.includes(needle)`: a left-to-right scan for an occurrence. */
  function Includes(hay: string, needle: string): (r: bool)
    ensures r <==> IsSubstring(needle, hay)
    decreases |hay|
  {
    if |needle| > |hay| then
      false
    else if hay[..|needle|] == needle then
      assert OccursAt(hay, needle, 0);
      true
    else
      var r := Includes(hay[1..], needle);
      assert !OccursAt(hay, needle, 0);
      forall i ensures OccursAt(hay[1..], needle, i) <==> OccursAt(hay, needle, i + 1) {
        if 0 <= i && i + |needle| <= |hay| - 1 {
          assert hay[1..][i..i + |needle|] == hay[i + 1..i + 1 + |needle|];
        }
      }
      assert r ==> IsSubstring(needle, hay) by {
        if r {
          var i :| OccursAt(hay[1..], needle, i);
          assert OccursAt(hay, needle, i + 1);
        }
      }
      assert IsSubstring(needle, hay) ==> r by {
        if IsSubstring(needle, hay) {
          var i :| OccursAt(hay, needle, i);
          assert i != 0;
          assert OccursAt(hay[1..], needle, i - 1);
        }
      }
      r
  }

  /** The leading run of trimmable characters removed. */
  function TrimStart(s: string): (r: string)
    ensures |r| <= |s| && r == s[|s| - |r|..]
    ensures forall k :: 0 <= k < |s| - |r| ==> IsTrimmable(s[k])
    ensures r != [] ==> !IsTrimmable(r[0])
  {
    if s != [] && IsTrimmable(s[0]) then TrimStart(s[1..]) else s
  }

  /** The trailing run of trimmable characters removed. */
  function TrimEnd(s: string): (r: string)
    ensures |r| <= |s| && r == s[..|r|]
    ensures forall k :: |r| <= k < |s| ==> IsTrimmable(s[k])
    ensures r != [] ==> !IsTrimmable(r[|r| - 1])
  {
    if s != [] && IsTrimmable(s[|s| - 1]) then TrimEnd(s[..|s| - 1]) else s
  }

  /** Text appended after a non-blank character leaves the leading whitespace alone. */
  lemma {:induction false} TrimStartAppend(s: string, tail: string)
    requires TrimStart(s) != []
    ensures TrimStart(s + tail) == TrimStart(s) + tail
  {
    assert s != [] && (s + tail)[0] == s[0];
    if IsTrimmable(s[0]) {
      assert (s + tail)[1..] == s[1..] + tail;
      assert TrimStart(s) == TrimStart(s[1..]);
      TrimStartAppend(s[1..], tail);
    } else {
      assert TrimStart(s) == s;
    }
  }

  /** The first `n` characters of a string that starts with `a`, when `a` has at least `n`. */
  lemma PrefixOfExtension(a: string, b: string, n: nat)
    requires n <= |a| <= |b| && a == b[..|a|]
    ensures Prefix(a, n) == Prefix(b, n)
  {
    assert a[..n] == b[..n];
  }

  /** A string whose `n`-th character is not trimmable keeps its first `n`
      characters through `TrimEnd`. */
  lemma TrimEndKeepsPrefix(u: string, n: nat)
    requires 0 < n <= |u| && !IsTrimmable(u[n - 1])
    ensures |TrimEnd(u)| >= n && TrimEnd(u)[..n] == u[..n]
  {
    var r := TrimEnd(u);
    assert r == u[..|r|];
  }

  /** Any text appended to a string with something left after `TrimEnd`:
      what `TrimEnd` keeps of the longer string starts with what it keeps of
      the shorter one. */
  lemma TrimEndAppend(t: string, tail: string)
    requires TrimEnd(t) != []
    ensures |TrimEnd(t)| <= |TrimEnd(t + tail)| && TrimEnd(t + tail)[..|TrimEnd(t)|] == TrimEnd(t)
  {
    var r := TrimEnd(t);
    var u := t + tail;
    assert u[|r| - 1] == r[|r| - 1];
    TrimEndKeepsPrefix(u, |r|);
    assert u[..|r|] == r;
  }

  /** Any text appended after a non-blank character: the trimmed longer
      string starts with the trimmed shorter one. */
  lemma TrimAppend(s: string, tail: string)
    requires Trim(s) != []
    ensures |Trim(s)| <= |Trim(s + tail)| && Trim(s + tail)[..|Trim(s)|] == Trim(s)
  {
    var t := TrimStart(s);
    assert Trim(s) == TrimEnd(t) && Trim(s + tail) == TrimEnd(TrimStart(s + tail));
    TrimStartAppend(s, tail);
    TrimEndAppend(t, tail);
  }

  /** Any text appended to a string whose trimmed form has at least `n`
      characters leaves the first `n` trimmed characters as they were. */
  lemma TrimmedPrefixAppend(s: string, tail: string, n: nat)
    requires |Trim(s)| >= n
    ensures Prefix(Trim(s + tail), n) == Prefix(Trim(s), n)
  {
    if n > 0 {
      TrimAppend(s, tail);
      PrefixOfExtension(Trim(s), Trim(s + tail), n);
    }
  }

  /** `r` is what is left of `s` once everything before index `i` and after
      `i + |r|` is stripped: all of it trimmable, and `r` neither starts nor
      ends with a trimmable character. */
  ghost predicate StripsTo(s: string, i: int, r: string)
  {
    OccursAt(s, r, i) &&
    (forall k :: 0 <= k < i ==> IsTrimmable(s[k])) &&
    (forall k :: i + |r| <= k < |s| ==> IsTrimmable(s[k])) &&
    (r != [] ==> !IsTrimmable(r[0]) && !IsTrimmable(r[|r| - 1]))
  }

  /** A leading trimmable run and then a trailing one removed, given by what
      `TrimStart` and `TrimEnd` promise: the rest is what `StripsTo` describes,
      and it is empty exactly when every character is trimmable. */
  lemma StripParts(s: string, t: string, r: string)
    requires |t| <= |s| && t == s[|s| - |t|..]
    requires forall k :: 0 <= k < |s| - |t| ==> IsTrimmable(s[k])
    requires t != [] ==> !IsTrimmable(t[0])
    requires |r| <= |t| && r == t[..|r|]
    requires forall k :: |r| <= k < |t| ==> IsTrimmable(t[k])
    requires r != [] ==> !IsTrimmable(r[|r| - 1])
    ensures StripsTo(s, |s| - |t|, r)
    ensures r == [] <==> forall k :: 0 <= k < |s| ==> IsTrimmable(s[k])
  {
    var i := |s| - |t|;
    assert forall k :: i <= k < |s| ==> s[k] == t[k - i];
    assert s[i..i + |r|] == r;
    if r != [] {
      assert r[0] == t[0];
    }
  }

  /** `s.trim()`. */
  function Trim(s: string): (r: string)
    ensures exists i :: StripsTo(s, i, r)
    ensures r == [] <==> forall k :: 0 <= k < |s| ==> IsTrimmable(s[k])
  {
    var t := TrimStart(s);
    var r := TrimEnd(t);
    StripParts(s, t, r);
    r
  }

  predicate IsLowerAscii(c: char)
  {
    'a' <= c <= 'z'
  }

  /** Upper-casing of one character; only the ASCII letters a-z change. */
  function UpperChar(c: char): (u: char)
    ensures !IsLowerAscii(u)
    ensures 'A' <= u <= 'Z' <==> IsLowerAscii(c) || 'A' <= c <= 'Z'
    ensures !IsLowerAscii(c) ==> u == c
    ensures IsLowerAscii(c) ==> u as int == c as int - 32
  {
    if IsLowerAscii(c) then (c as int - 32) as char else c
  }

  /** `s.toUpperCase()`, character by character. */
  function Upper(s: string): (r: string)
    ensures |r| == |s|
    ensures forall k :: 0 <= k < |s| ==> r[k] == UpperChar(s[k])
  {
    if s == [] then [] else [UpperChar(s[0])] + Upper(s[1..])
  }

  /** `s.substring(0, n)`: the first `n` characters, or all of `s` when it is shorter. */
  function Prefix(s: string, n: nat): (r: string)
    ensures |r| == if |s| < n then |s| else n
    ensures r == s[..|r|]
  {
    if |s| <= n then s else s[..n]
  }

  /** Cutting and upper-casing commute. */
  lemma UpperPrefix(s: string, n: nat)
    ensures Upper(Prefix(s, n)) == Prefix(Upper(s), n)
  {
    var a, b := Upper(Prefix(s, n)), Prefix(Upper(s), n);
    assert |a| == |b|;
    forall k | 0 <= k < |a| ensures a[k] == b[k] {
      assert Prefix(s, n)[k] == s[k];
    }
  }
}
