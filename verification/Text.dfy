/** Go's `strings` operations that the modelled packages rely on. */
module Text {

  predicate OccursAt(s: string, sep: string, i: int) {
    0 <= i <= |s| && sep <= s[i..]
  }

  /** Position of the first occurrence of `sep`, or -1. */
  function Index(s: string, sep: string): (i: int)
    requires sep != []
    ensures i == -1 || OccursAt(s, sep, i)
    ensures forall j :: 0 <= j && (i == -1 || j < i) ==> !OccursAt(s, sep, j)
  {
    if |s| < |sep| then -1
    else if OccursAt(s, sep, 0) then 0
    else
      var r := Index(s[1..], sep);
      assert forall j :: 1 <= j ==> OccursAt(s, sep, j) == OccursAt(s[1..], sep, j - 1) by {
        forall j | 1 <= j ensures OccursAt(s, sep, j) == OccursAt(s[1..], sep, j - 1) {
          if j <= |s| { assert s[1..][j - 1..] == s[j..]; }
        }
      }
      if r < 0 then -1 else r + 1
  }

  predicate Contains(s: string, sub: string)
    requires sub != []
  {
    Index(s, sub) >= 0
  }

  predicate HasPrefix(s: string, p: string) { p <= s }

  predicate HasSuffix(s: string, t: string) { |t| <= |s| && s[|s| - |t|..] == t }

  function Join(parts: seq<string>, sep: string): (s: string) {
    if |parts| == 0 then ""
    else if |parts| == 1 then parts[0]
    else parts[0] + sep + Join(parts[1..], sep)
  }

  function Split(s: string, sep: string): (parts: seq<string>)
    requires sep != []
    ensures |parts| >= 1
    ensures forall p :: p in parts ==> !Contains(p, sep)
    ensures Join(parts, sep) == s
  {
    var i := Index(s, sep);
    if i < 0 then [s]
    else
      var head := s[..i];
      assert !Contains(head, sep) by {
        var j := Index(head, sep);
        if j >= 0 { assert head[j..] <= s[j..]; assert OccursAt(s, sep, j); }
      }
      var tail := Split(s[i + |sep|..], sep);
      assert s == s[..i] + sep + s[i + |sep|..] by { assert s[i..] == sep + s[i..][|sep|..]; }
      [head] + tail
  }

  function TrimRight(s: string, c: char): (t: string)
    ensures t <= s
    ensures t == [] || t[|t| - 1] != c
    ensures forall i :: |t| <= i < |s| ==> s[i] == c
  {
    if s != [] && s[|s| - 1] == c then TrimRight(s[..|s| - 1], c) else s
  }

  function TrimLeft(s: string, c: char): (t: string)
    ensures t == [] || t[0] != c
  {
    if s != [] && s[0] == c then TrimLeft(s[1..], c) else s
  }

  function Trim(s: string, c: char): (t: string) { TrimRight(TrimLeft(s, c), c) }

  function TrimSuffix(s: string, t: string): (r: string) {
    if HasSuffix(s, t) then s[..|s| - |t|] else s
  }

  function Reverse<T>(s: seq<T>): (r: seq<T>)
    ensures |r| == |s|
    ensures forall i :: 0 <= i < |s| ==> r[i] == s[|s| - 1 - i]
  {
    seq(|s|, i requires 0 <= i < |s| => s[|s| - 1 - i])
  }

  lemma ReverseReverse<T>(s: seq<T>)
    ensures Reverse(Reverse(s)) == s
  {
  }

  function LowerChar(c: char): char {
    if 'A' <= c <= 'Z' then c + 32 as char else c
  }

  /** ASCII part of `strings.ToLower`. */
  function ToLower(s: string): (t: string)
    ensures |t| == |s|
  {
    seq(|s|, i requires 0 <= i < |s| => LowerChar(s[i]))
  }

  predicate Free(parts: seq<string>, c: char) {
    forall i :: 0 <= i < |parts| ==> c !in parts[i]
  }

  lemma ContainsChar(s: string, c: char)
    ensures Contains(s, [c]) <==> c in s
  {
    var i := Index(s, [c]);
    assert i >= 0 ==> s[i] == c;
    if c in s {
      var k :| 0 <= k < |s| && s[k] == c;
      assert OccursAt(s, [c], k);
    }
  }

  lemma IndexAfterFree(p: string, c: char, rest: string)
    requires c !in p
    ensures Index(p + [c] + rest, [c]) == |p|
  {
    var s := p + [c] + rest;
    assert OccursAt(s, [c], |p|);
    var i := Index(s, [c]);
    assert s[i..i + 1][0] == s[i];
  }

  /** Splitting undoes joining when no part contains the separator. */
  lemma {:induction false} SplitJoin(parts: seq<string>, c: char)
    requires |parts| >= 1 && Free(parts, c)
    ensures Split(Join(parts, [c]), [c]) == parts
  {
    ContainsChar(parts[0], c);
    if |parts| > 1 {
      var rest := Join(parts[1..], [c]);
      var s := parts[0] + [c] + rest;
      IndexAfterFree(parts[0], c, rest);
      assert s[..|parts[0]|] == parts[0];
      assert s[|parts[0]| + 1..] == rest;
      SplitJoin(parts[1..], c);
    }
  }

  lemma SplitFree(s: string, c: char)
    ensures Free(Split(s, [c]), c)
  {
    var parts := Split(s, [c]);
    forall i | 0 <= i < |parts| ensures c !in parts[i] {
      ContainsChar(parts[i], c);
      assert parts[i] in parts;
    }
  }

  lemma {:induction false} JoinAppend(a: seq<string>, b: seq<string>, sep: string)
    requires a != [] && b != []
    ensures Join(a + b, sep) == Join(a, sep) + sep + Join(b, sep)
  {
    if |a| == 1 {
      assert (a + b)[1..] == b;
    } else {
      JoinAppend(a[1..], b, sep);
      assert (a + b)[1..] == a[1..] + b;
    }
  }

  /** Trimming a concatenation trims its last part, unless nothing of that part is left. */
  lemma {:induction false} TrimRightAppend(a: string, b: string, c: char)
    ensures TrimRight(a + b, c) == if TrimRight(b, c) == "" then TrimRight(a, c) else a + TrimRight(b, c)
  {
    if b == "" {
      assert a + b == a;
    } else if b[|b| - 1] == c {
      assert (a + b)[..|a + b| - 1] == a + b[..|b| - 1];
      TrimRightAppend(a, b[..|b| - 1], c);
    }
  }

  lemma JoinOne(s: string, sep: string)
    ensures Join([s], sep) == s
  {
  }

  lemma {:induction false} JoinLast(parts: seq<string>, sep: string)
    requires parts != [] && parts[|parts| - 1] != ""
    ensures var s, last := Join(parts, sep), parts[|parts| - 1]; s != "" && s[|s| - 1] == last[|last| - 1]
  {
    if |parts| > 1 { JoinLast(parts[1..], sep); }
  }

  /** An occurrence of a text that does not contain `c` lies on one side of any `c`. */
  lemma OccursOnOneSide(a: string, c: char, b: string, pat: string, j: nat)
    requires pat != [] && c !in pat && OccursAt(a + [c] + b, pat, j)
    ensures (j + |pat| <= |a| && OccursAt(a, pat, j)) || (j > |a| && OccursAt(b, pat, j - |a| - 1))
  {
    var s := a + [c] + b;
    if j <= |a| < j + |pat| {
      CharOfOccurrence(s, pat, j, |a| - j);
    } else if j + |pat| <= |a| {
      forall k | 0 <= k < |pat| ensures pat[k] == a[j..][k] { CharOfOccurrence(s, pat, j, k); }
    } else {
      assert s[j..] == b[j - |a| - 1..];
    }
  }

  lemma CharOfOccurrence(s: string, pat: string, j: nat, k: nat)
    requires OccursAt(s, pat, j) && k < |pat|
    ensures j + k < |s| && s[j + k] == pat[k] && pat[k] in pat
  {
    assert s[j..][k] == pat[k];
  }
}
