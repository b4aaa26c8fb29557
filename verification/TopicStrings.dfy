/** The string operations that topics are cut and rebuilt with. Go strings are
    byte strings; here a string is a sequence of characters, one per byte. */
module TopicStrings {
  predicate HasPrefix(s: string, p: string) {
    p <= s
  }

  predicate HasSuffix(s: string, p: string) {
    |p| <= |s| && s[|s| - |p|..] == p
  }

  predicate SlashFree(s: string) {
    '/' !in s
  }

  /** Position of the first `c` in `s`, or -1. */
  function IndexOf(s: string, c: char): (i: int)
    ensures -1 <= i < |s|
    ensures i == -1 <==> c !in s
    ensures i >= 0 ==> s[i] == c && c !in s[..i]
  {
    if s == [] then -1
    else if s[0] == c then 0
    else
      var j := IndexOf(s[1..], c);
      if j == -1 then -1
      else
        assert s[..j + 1] == [s[0]] + s[1..][..j];
        j + 1
  }

  /** A position with `c`, and none before it, is the first. */
  lemma FirstIs(s: string, c: char, i: nat)
    requires i < |s| && s[i] == c
    requires forall j :: 0 <= j < i ==> s[j] != c
    ensures IndexOf(s, c) == i
  {
    var first := IndexOf(s, c);
    assert forall k :: i < k <= |s| ==> s[..k][i] == c;
  }

  /** `pat` occurs in `s` at position `i`. */
  predicate OccursAt(s: string, pat: string, i: int) {
    0 <= i <= |s| - |pat| && s[i..i + |pat|] == pat
  }

  /** Position of the first occurrence of `pat` in `s` at or after `from`, or -1. */
  function FindFrom(s: string, pat: string, from: nat): (i: int)
    requires from <= |s|
    ensures i == -1 <==> forall k :: from <= k ==> !OccursAt(s, pat, k)
    ensures i != -1 ==> from <= i && OccursAt(s, pat, i) && forall k :: from <= k < i ==> !OccursAt(s, pat, k)
    decreases |s| - from
  {
    if OccursAt(s, pat, from) then from
    else if from == |s| then -1
    else FindFrom(s, pat, from + 1)
  }

  function Find(s: string, pat: string): (i: int)
    ensures i == -1 <==> forall k: nat :: !OccursAt(s, pat, k)
    ensures i != -1 ==> OccursAt(s, pat, i) && forall k :: 0 <= k < i ==> !OccursAt(s, pat, k)
  {
    FindFrom(s, pat, 0)
  }

  predicate Contains(s: string, sub: string) {
    Find(s, sub) != -1
  }

  /** Replaces the first occurrence of `pat`, if there is one. */
  function ReplaceFirst(s: string, pat: string, replacement: string): string {
    var i := Find(s, pat);
    if i == -1 then s else s[..i] + replacement + s[i + |pat|..]
  }

  /** The segments of a topic. */
  function Split(s: string): (segments: seq<string>)
    ensures segments != []
    ensures forall k :: 0 <= k < |segments| ==> SlashFree(segments[k])
    ensures SlashFree(s) ==> segments == [s]
  {
    var i := IndexOf(s, '/');
    if i == -1 then [s] else [s[..i]] + Split(s[i + 1..])
  }

  function Join(segments: seq<string>): string
    requires segments != []
  {
    if |segments| == 1 then segments[0] else segments[0] + "/" + Join(segments[1..])
  }

  ghost predicate AllSlashFree(segments: seq<string>) {
    forall k :: 0 <= k < |segments| ==> SlashFree(segments[k])
  }

  /** Where the first slash of `a + "/" + b` is, when `a` holds none. */
  lemma FirstSlash(a: string, b: string)
    requires SlashFree(a)
    ensures IndexOf(a + "/" + b, '/') == |a|
    ensures (a + "/" + b)[..|a|] == a && (a + "/" + b)[|a| + 1..] == b
  {
    var s := a + "/" + b;
    assert s[..|a|] == a && s[|a|] == '/';
    assert IndexOf(s, '/') != -1;
  }

  lemma SplitFirst(a: string, b: string)
    requires SlashFree(a)
    ensures Split(a + "/" + b) == [a] + Split(b)
  {
    FirstSlash(a, b);
  }

  /** Splitting undoes joining. */
  lemma {:induction false} SplitJoin(segments: seq<string>)
    requires segments != [] && AllSlashFree(segments)
    ensures Split(Join(segments)) == segments
  {
    if |segments| > 1 {
      SplitJoin(segments[1..]);
      SplitFirst(segments[0], Join(segments[1..]));
      assert segments == [segments[0]] + segments[1..];
    }
  }

  lemma JoinFirst(a: string, rest: seq<string>)
    requires rest != []
    ensures Join([a] + rest) == a + "/" + Join(rest)
  {
    assert ([a] + rest)[1..] == rest;
  }

  lemma AroundSlash(s: string, i: nat)
    requires i < |s| && s[i] == '/'
    ensures s == s[..i] + "/" + s[i + 1..]
  {
  }

  /** Joining undoes splitting. */
  lemma {:induction false} JoinSplit(s: string)
    ensures Join(Split(s)) == s
  {
    var i := IndexOf(s, '/');
    if i != -1 {
      JoinSplit(s[i + 1..]);
      JoinFirst(s[..i], Split(s[i + 1..]));
      AroundSlash(s, i);
    }
  }

  /** Joining a list that ends in `b` is joining its front and then `b`. */
  lemma {:induction false} JoinConcat(a: seq<string>, b: seq<string>)
    requires a != [] && b != []
    ensures Join(a + b) == Join(a) + "/" + Join(b)
  {
    if |a| == 1 {
      assert (a + b)[1..] == b;
    } else {
      JoinConcat(a[1..], b);
      assert (a + b)[1..] == a[1..] + b;
    }
  }

  lemma {:induction false} SplitJoinLast(segments: seq<string>, last: string)
    requires AllSlashFree(segments)
    ensures Split(Join(segments + [last])) == segments + Split(last)
  {
    if segments == [] {
      assert segments + [last] == [last];
      assert segments + Split(last) == Split(last);
    } else {
      SplitJoinLast(segments[1..], last);
      FirstAndRest(segments, [last]);
      FirstAndRest(segments, Split(last));
      JoinFirst(segments[0], segments[1..] + [last]);
      SplitFirst(segments[0], Join(segments[1..] + [last]));
    }
  }

  /** Splitting a text at one of its slashes first makes no difference. */
  lemma {:induction false} SplitConcat(a: string, b: string)
    ensures Split(a + "/" + b) == Split(a) + Split(b)
  {
    var i := IndexOf(a, '/');
    if i == -1 {
      SplitFirst(a, b);
    } else {
      var front, rest := a[..i], a[i + 1..];
      AroundSlash(a, i);
      Regroup(front, rest, b);
      SplitFirst(front, rest + "/" + b);
      SplitConcat(rest, b);
      assert [front] + (Split(rest) + Split(b)) == [front] + Split(rest) + Split(b);
    }
  }

  lemma Regroup(front: string, rest: string, b: string)
    ensures front + "/" + rest + "/" + b == front + "/" + (rest + "/" + b)
  {
  }

  lemma FirstAndRest(s: seq<string>, t: seq<string>)
    requires s != []
    ensures s + t == [s[0]] + (s[1..] + t)
  {
  }

  lemma Associative(a: string, b: string, c: string)
    ensures a + b + c == a + (b + c)
  {
  }

  /** What the segments from the `n`th on add to a topic that is being built. */
  function Tail(segments: seq<string>, n: nat): string {
    if n < |segments| then "/" + Join(segments[n..]) else ""
  }

  method AppendSegments(start: string, segments: seq<string>, n: nat) returns (buff: string)
    ensures buff == start + Tail(segments, n)
  {
    buff := start;
    var i := n;
    while i < |segments|
      invariant n <= i && (i <= |segments| || i == n)
      invariant buff == start + Tail(segments[..if i <= |segments| then i else |segments|], n)
    {
      TailNext(segments, n, i);
      buff := buff + "/";
      buff := buff + segments[i];
      i := i + 1;
    }
    assert segments[..if i <= |segments| then i else |segments|] == segments;
  }

  lemma TailNext(segments: seq<string>, n: nat, i: nat)
    requires n <= i < |segments|
    ensures Tail(segments[..i + 1], n) == Tail(segments[..i], n) + "/" + segments[i]
  {
    assert segments[..i + 1][n..] == segments[n..i + 1];
    assert segments[..i][n..] == segments[n..i];
    if n < i {
      assert segments[n..i + 1] == segments[n..i] + [segments[i]];
      JoinConcat(segments[n..i], [segments[i]]);
    }
  }

  /** The segments from the `n`th on, if there are any. */
  function After(segments: seq<string>, n: nat): seq<string> {
    if n <= |segments| then segments[n..] else []
  }

  lemma JoinTail(head: seq<string>, segments: seq<string>, n: nat)
    requires head != []
    ensures Join(head + After(segments, n)) == Join(head) + Tail(segments, n)
  {
    if n < |segments| {
      JoinConcat(head, segments[n..]);
    } else {
      assert head + After(segments, n) == head;
    }
  }

  /** Short lists written out after what is there already. */
  lemma BuildThree(start: string, a: string, b: string, c: string)
    ensures start + a + "/" + b + "/" + c == start + Join([a, b, c])
  {
    assert [a, b, c][1..] == [b, c] && [b, c][1..] == [c];
    assert Join([b, c]) == b + "/" + c;
    assert start + a + "/" + b + "/" + c == start + (a + "/" + (b + "/" + c));
  }

  lemma BuildFour(start: string, a: string, b: string, c: string, d: string)
    ensures start + a + "/" + b + "/" + c + "/" + d == start + Join([a, b, c, d])
  {
    BuildThree(start + a + "/", b, c, d);
    assert [a, b, c, d][1..] == [b, c, d];
    assert start + a + "/" + Join([b, c, d]) == start + (a + "/" + Join([b, c, d]));
  }
}
