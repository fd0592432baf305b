/**
 * The Python `str` operations the assistant relies on: `isspace`, `strip`,
 * `find` / `in`, `partition`, `split` with an explicit separator, `join` and
 * `lower`, each stated over `seq<char>`.
 */
module PyStr {

  /** `c.isspace()`: the code points Python treats as whitespace. */
  predicate IsSpace(c: char) {
    ('\t' <= c <= '\r') || ('\U{1c}' <= c <= '\U{1f}') || c == ' '
    || c == '\U{85}' || c == '\U{a0}' || c == '\U{1680}'
    || ('\U{2000}' <= c <= '\U{200a}') || c == '\U{2028}' || c == '\U{2029}'
    || c == '\U{202f}' || c == '\U{205f}' || c == '\U{3000}'
  }

  /** `c.isdigit()` restricted to the ASCII digits. */
  predicate IsDigit(c: char) {
    '0' <= c <= '9'
  }

  /** All characters of `s` are whitespace. */
  predicate AllSpace(s: string) {
    forall k :: 0 <= k < |s| ==> IsSpace(s[k])
  }

  /** Index of the first non-whitespace character of `s` (or |s|). */
  function StripStart(s: string): (i: nat)
    ensures i <= |s|
    ensures forall k :: 0 <= k < i ==> IsSpace(s[k])
    ensures i < |s| ==> !IsSpace(s[i])
  {
    if |s| > 0 && IsSpace(s[0]) then
      var j := StripStart(s[1..]);
      assert forall k :: 1 <= k < j + 1 ==> s[k] == s[1..][k - 1];
      j + 1
    else 0
  }

  /** One past the last non-whitespace character of `s`, not going below `lo`. */
  function StripEnd(s: string, lo: nat): (j: nat)
    requires lo <= |s|
    ensures lo <= j <= |s|
    ensures forall k :: j <= k < |s| ==> IsSpace(s[k])
    ensures j > lo ==> !IsSpace(s[j - 1])
    decreases |s| - lo
  {
    if |s| > lo && IsSpace(s[|s| - 1]) then
      var j := StripEnd(s[..|s| - 1], lo);
      assert forall k :: j <= k < |s| - 1 ==> s[k] == s[..|s| - 1][k];
      j
    else |s|
  }

  /** `s.strip()`: `s` without its leading and trailing whitespace. */
  function Strip(s: string): (r: string)
    ensures |r| <= |s|
    ensures r == [] <==> AllSpace(s)
    ensures r != [] ==> !IsSpace(r[0]) && !IsSpace(r[|r| - 1])
    ensures |s| > 0 && !IsSpace(s[0]) && !IsSpace(s[|s| - 1]) ==> r == s
  {
    var i := StripStart(s);
    var j := StripEnd(s, i);
    s[i..j]
  }

  /** Stripping whitespace padding gives back the padded text. */
  lemma StripPadded(pre: string, core: string, post: string)
    requires AllSpace(pre) && AllSpace(post)
    requires |core| > 0 && !IsSpace(core[0]) && !IsSpace(core[|core| - 1])
    ensures Strip(pre + core + post) == core
  {
    var s := pre + core + post;
    var e := |pre| + |core|;
    assert forall k :: 0 <= k < |pre| ==> s[k] == pre[k];
    assert forall k :: e <= k < |s| ==> s[k] == post[k - e];
    assert s[|pre|] == core[0] && s[e - 1] == core[|core| - 1];
    assert s[|pre|..e] == core;
  }

  /** `sub` occurs in `s` starting at index `i`. */
  predicate OccursAt(s: string, sub: string, i: nat) {
    i + |sub| <= |s| && forall j :: 0 <= j < |sub| ==> s[i + j] == sub[j]
  }

  /** An occurrence past the first index of `s` is an occurrence in `s[1..]`, one index earlier. */
  lemma OccursShift(s: string, sub: string)
    requires |s| > 0
    ensures forall i: nat :: OccursAt(s, sub, i + 1) <==> OccursAt(s[1..], sub, i)
  {
  }

  /** `s.find(sub)`: the first index where `sub` occurs in `s`, or -1. */
  function Find(s: string, sub: string): (r: int)
    ensures -1 <= r <= |s|
    ensures r >= 0 ==> OccursAt(s, sub, r)
    ensures forall i: nat :: i < (if r < 0 then |s| + 1 else r) ==> !OccursAt(s, sub, i)
  {
    if |s| < |sub| then -1
    else if OccursAt(s, sub, 0) then 0
    else
      var k := Find(s[1..], sub);
      OccursShift(s, sub);
      var r := if k < 0 then -1 else k + 1;
      assert forall i: nat :: i < (if r < 0 then |s| + 1 else r) ==> !OccursAt(s, sub, i) by {
        forall i: nat | i < (if r < 0 then |s| + 1 else r)
          ensures !OccursAt(s, sub, i)
        {
          if i > 0 {
            assert OccursAt(s, sub, (i - 1) + 1) == OccursAt(s[1..], sub, i - 1);
          }
        }
      }
      r
  }

  /** Inside a stretch of `s` that equals `t`, the occurrences of `sub` in `s` are those in `t`. */
  lemma OccursWithin(s: string, off: nat, t: string, sub: string, i: nat)
    requires off + |t| <= |s| && s[off..off + |t|] == t
    requires i + |sub| <= |t|
    ensures OccursAt(s, sub, off + i) <==> OccursAt(t, sub, i)
  {
    assert forall k :: 0 <= k < |t| ==> s[off + k] == t[k];
  }

  /** A one-character string occurs at `i` exactly when that character is at `i`. */
  lemma OccursAtChar(s: string, c: char, i: nat)
    ensures OccursAt(s, [c], i) <==> i < |s| && s[i] == c
  {
    assert OccursAt(s, [c], i) ==> s[i + 0] == [c][0];
  }

  /** A character that differs from the one `sub` needs there rules out an occurrence at `i`. */
  lemma Mismatch(s: string, sub: string, i: nat, j: nat)
    requires j < |sub|
    requires i + j >= |s| || s[i + j] != sub[j]
    ensures !OccursAt(s, sub, i)
  {
  }

  /** A three-character string occurs at `i` exactly when its characters are at `i`, `i + 1`, `i + 2`. */
  lemma OccursAt3(s: string, sub: string, i: nat)
    requires |sub| == 3
    ensures OccursAt(s, sub, i) <==>
      i + 3 <= |s| && s[i] == sub[0] && s[i + 1] == sub[1] && s[i + 2] == sub[2]
  {
    assert OccursAt(s, sub, i) ==> s[i + 0] == sub[0];
  }

  /** `sub in s`. */
  predicate Contains(s: string, sub: string) {
    Find(s, sub) >= 0
  }

  /** An occurrence anywhere means `sub in s`, and it is at or after the one `find` reports. */
  lemma OccursContains(s: string, sub: string, i: nat)
    requires OccursAt(s, sub, i)
    ensures Contains(s, sub) && Find(s, sub) <= i
  {
  }

  /** The first occurrence is at `k` when `sub` occurs at `k` and nowhere before. */
  lemma FindIs(s: string, sub: string, k: nat)
    requires OccursAt(s, sub, k)
    requires forall i: nat :: i < k ==> !OccursAt(s, sub, i)
    ensures Find(s, sub) == k
  {
  }

  /** A string lacking one of the characters of `sub` does not contain it. */
  lemma LacksChar(s: string, sub: string, j: nat)
    requires j < |sub| && sub[j] !in s
    ensures !Contains(s, sub)
  {
    forall i: nat | i < |s| + 1 ensures !OccursAt(s, sub, i) {
      if i + j < |s| {
        assert s[i + j] in s;
      }
      Mismatch(s, sub, i, j);
    }
  }

  /** An occurrence read off a slice. */
  lemma OccursAtSlice(s: string, sub: string, i: nat)
    requires i + |sub| <= |s| && s[i..i + |sub|] == sub
    ensures OccursAt(s, sub, i)
  {
    forall k | i <= k < i + |sub| ensures s[k] == sub[k - i] {
      assert s[i..i + |sub|][k - i] == s[k];
    }
  }

  /** `sub` first occurs at `k` when it occurs there and its first character is not earlier. */
  lemma FindFirstAt(s: string, sub: string, k: nat)
    requires |sub| > 0 && OccursAt(s, sub, k) && sub[0] !in s[..k]
    ensures Find(s, sub) == k
  {
    forall i: nat | i < k ensures !OccursAt(s, sub, i) {
      assert s[i] == s[..k][i];
      Mismatch(s, sub, i, 0);
    }
  }

  /** A string that starts with `sub` has its first occurrence at 0. */
  lemma FindAtStart(sub: string, y: string)
    requires |sub| > 0
    ensures Find(sub + y, sub) == 0 && After(sub + y, sub) == y
  {
    var s := sub + y;
    assert s[..|sub|] == sub;
    OccursAtSlice(s, sub, 0);
    FindIs(s, sub, 0);
    assert s[|sub|..] == y;
  }

  /** When `x` lacks the first character of `sub`, the first occurrence of `sub` in
      `x + sub + y` is the one after `x`: the parts around it are `x` and `y`. */
  lemma FindAfterPrefix(x: string, sub: string, y: string)
    requires |sub| > 0 && sub[0] !in x
    ensures Find(x + sub + y, sub) == |x|
    ensures Before(x + sub + y, sub) == x && After(x + sub + y, sub) == y
  {
    var s := x + sub + y;
    assert s[|x|..|x| + |sub|] == sub;
    OccursAtSlice(s, sub, |x|);
    assert s[..|x|] == x;
    FindFirstAt(s, sub, |x|);
    assert s[|x| + |sub|..] == y;
  }

  /** `s.partition(sep)[0]`: the text before the first `sep`, or all of `s`. */
  function Before(s: string, sep: string): string {
    var i := Find(s, sep);
    if i < 0 then s else s[..i]
  }

  /** `s.partition(sep)[2]`: the text after the first `sep`, or the empty string. */
  function After(s: string, sep: string): string {
    var i := Find(s, sep);
    if i < 0 then "" else s[i + |sep|..]
  }

  /** `sep.join(parts)`. */
  function Join(parts: seq<string>, sep: string): string {
    if |parts| == 0 then ""
    else if |parts| == 1 then parts[0]
    else parts[0] + sep + Join(parts[1..], sep)
  }

  /** `s.split(sep)` for a non-empty separator: the pieces between successive non-overlapping occurrences. */
  function Split(s: string, sep: string): (parts: seq<string>)
    requires |sep| > 0
    ensures 1 <= |parts| <= |s| + 1
    decreases |s|
  {
    var i := Find(s, sep);
    if i < 0 then [s] else [s[..i]] + Split(s[i + |sep|..], sep)
  }

  /** The text before the first occurrence of `sep` does not contain `sep`. */
  lemma BeforeFirstLacks(s: string, sep: string)
    requires |sep| > 0 && Find(s, sep) >= 0
    ensures !Contains(s[..Find(s, sep)], sep)
  {
    var i := Find(s, sep);
    var p := Find(s[..i], sep);
    assert p >= 0 ==> OccursAt(s, sep, p);
  }

  /** No piece of a split contains the separator. */
  lemma {:induction false} SplitPiecesLack(s: string, sep: string)
    requires |sep| > 0
    ensures forall k :: 0 <= k < |Split(s, sep)| ==> !Contains(Split(s, sep)[k], sep)
    decreases |s|
  {
    var i := Find(s, sep);
    if i >= 0 {
      SplitPiecesLack(s[i + |sep|..], sep);
      BeforeFirstLacks(s, sep);
    }
  }

  /** Joining the pieces of a split with the separator gives the string back. */
  lemma {:induction false} JoinSplit(s: string, sep: string)
    requires |sep| > 0
    ensures Join(Split(s, sep), sep) == s
    decreases |s|
  {
    var i := Find(s, sep);
    if i >= 0 {
      var rest := s[i + |sep|..];
      JoinSplit(rest, sep);
      var parts := Split(s, sep);
      assert parts == [s[..i]] + Split(rest, sep);
      assert parts[1..] == Split(rest, sep);
      assert Join(parts, sep) == s[..i] + sep + Join(Split(rest, sep), sep);
      assert s[i..i + |sep|] == sep;
      assert s == s[..i] + s[i..i + |sep|] + rest;
    }
  }

  /** The first piece of a split is the text before the first separator, the second
      the text between the first and the second; there is a second piece exactly when
      the separator occurs. */
  lemma SplitFields(s: string, sep: string)
    requires |sep| > 0
    ensures Split(s, sep)[0] == Before(s, sep)
    ensures |Split(s, sep)| >= 2 <==> Contains(s, sep)
    ensures Contains(s, sep) ==> Split(s, sep)[1] == Before(After(s, sep), sep)
    ensures Contains(s, sep) ==> Split(s, sep)[1..] == Split(After(s, sep), sep)
  {
  }

  /** A string without the separator splits into itself alone. */
  lemma SplitAbsent(s: string, sep: string)
    requires |sep| > 0 && !Contains(s, sep)
    ensures Split(s, sep) == [s]
  {
  }

  /** When the first separator is the one right after `x`, the first piece is `x` and the rest
      is the split of `y`. */
  lemma SplitAtFirst(x: string, sep: string, y: string)
    requires |sep| > 0 && Find(x + sep + y, sep) == |x|
    ensures Split(x + sep + y, sep) == [x] + Split(y, sep)
  {
    var s := x + sep + y;
    assert s[..|x|] == x;
    assert s[|x| + |sep|..] == y;
  }

  /** ... and when `y` has no separator, the pieces are exactly `x` and `y`. */
  lemma SplitInTwo(x: string, sep: string, y: string)
    requires |sep| > 0 && Find(x + sep + y, sep) == |x| && !Contains(y, sep)
    ensures Split(x + sep + y, sep) == [x, y]
  {
    SplitAtFirst(x, sep, y);
    SplitAbsent(y, sep);
  }

  /** Splitting a join on a one-character separator the pieces lack gives the pieces back. */
  lemma {:induction false} SplitJoin(parts: seq<string>, c: char)
    requires |parts| >= 1
    requires forall k :: 0 <= k < |parts| ==> c !in parts[k]
    ensures Split(Join(parts, [c]), [c]) == parts
  {
    var s := Join(parts, [c]);
    if |parts| == 1 {
      LacksChar(parts[0], [c], 0);
    } else {
      var a := parts[0];
      assert s == a + [c] + Join(parts[1..], [c]);
      assert OccursAt(s, [c], |a|);
      forall i: nat | i < |a| ensures !OccursAt(s, [c], i) {
        OccursAtChar(s, c, i);
        assert s[i] == a[i] && a[i] in parts[0];
      }
      FindIs(s, [c], |a|);
      assert s[..|a|] == a;
      assert s[|a| + 1..] == Join(parts[1..], [c]);
      SplitJoin(parts[1..], c);
    }
  }

  /** `c.lower()` for the ASCII letters. */
  function LowerChar(c: char): char {
    if 'A' <= c <= 'Z' then (c as int + 32) as char else c
  }

  /** `s.lower()`, character by character: no capital is left, only capitals change, and each
      becomes its own small letter. */
  function Lower(s: string): (r: string)
    ensures |r| == |s|
    ensures forall k :: 0 <= k < |r| ==> !('A' <= r[k] <= 'Z')
    ensures forall k :: 0 <= k < |s| ==> (r[k] == s[k] <==> !('A' <= s[k] <= 'Z'))
    ensures forall k :: 0 <= k < |s| && 'A' <= s[k] <= 'Z' ==> r[k] as int == s[k] as int + 32
  {
    seq(|s|, k requires 0 <= k < |s| => LowerChar(s[k]))
  }

  /** A lower-case letter is missing from `s.lower()` when it is missing from `s` in both cases. */
  lemma LowerLacks(s: string, c: char)
    requires 'a' <= c <= 'z'
    requires c !in s && (c as int - 32) as char !in s
    ensures c !in Lower(s)
  {
    forall k | 0 <= k < |s| ensures Lower(s)[k] != c {
      assert s[k] in s;
    }
  }

  /** An occurrence of `sub` in `s` is an occurrence of `sub.lower()` in `s.lower()`. */
  lemma ContainsLower(s: string, sub: string)
    ensures Contains(s, sub) ==> Contains(Lower(s), Lower(sub))
  {
    var i := Find(s, sub);
    if i >= 0 {
      assert OccursAt(Lower(s), Lower(sub), i);
    }
  }
}
