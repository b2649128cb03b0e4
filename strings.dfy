/// The few .NET string operations the converter relies on, as total
/// functions on `string` (a `seq<char>`): String.IndexOf(char),
/// String.Split(char), String.Contains(string) and String.ToLower()
/// (ASCII letters only), with the facts about them that the rest of the
/// model uses.
module Strings {

  datatype Option<+T> = None | Some(value: T)

  /** The index of the first `c` in `s`, or -1 when `s` has none (String.IndexOf). */
  function IndexOf(s: string, c: char): (r: int)
    ensures -1 <= r < |s|
  {
    if |s| == 0 then -1
    else if s[0] == c then 0
    else
      var i := IndexOf(s[1..], c);
      if i == -1 then -1 else i + 1
  }

  /** IndexOf answers -1 exactly when `c` is absent, and otherwise finds
      the first occurrence. */
  lemma {:induction false} IndexOfFirst(s: string, c: char)
    ensures IndexOf(s, c) == -1 <==> c !in s
    ensures IndexOf(s, c) >= 0 ==> s[IndexOf(s, c)] == c && c !in s[..IndexOf(s, c)]
    decreases |s|
  {
    if |s| > 0 && s[0] != c {
      IndexOfFirst(s[1..], c);
      var i := IndexOf(s[1..], c);
      if i != -1 {
        assert IndexOf(s, c) == i + 1;
        assert s[..i + 1] == [s[0]] + s[1..][..i];
        assert s[i + 1] == s[1..][i];
      } else {
        assert IndexOf(s, c) == -1;
        forall k | 0 <= k < |s| ensures s[k] != c {
          if k > 0 {
            assert s[k] == s[1..][k - 1];
          }
        }
      }
    }
  }

  /** The segments of `s` between the occurrences of `c` (String.Split(char)). */
  function Split(s: string, c: char): (parts: seq<string>)
    ensures |parts| >= 1
    decreases |s|
  {
    var i := IndexOf(s, c);
    if i == -1 then [s]
    else [s[..i]] + Split(s[i + 1..], c)
  }

  /** No segment contains the separator. */
  lemma {:induction false} SplitSegmentsFree(s: string, c: char)
    ensures forall k :: 0 <= k < |Split(s, c)| ==> c !in Split(s, c)[k]
    decreases |s|
  {
    var i := IndexOf(s, c);
    if i != -1 {
      var parts, rest := Split(s, c), Split(s[i + 1..], c);
      assert parts == [s[..i]] + rest;
      assert c !in parts[0] by {
        IndexOfFirst(s, c);
      }
      SplitSegmentsFree(s[i + 1..], c);
      forall k | 1 <= k < |parts| ensures c !in parts[k] {
        assert parts[k] == rest[k - 1];
      }
    } else {
      IndexOfFirst(s, c);
    }
  }

  /** The segments glued back together with `c` between them (String.Join). */
  function Join(parts: seq<string>, c: char): string
    decreases |parts|
  {
    if |parts| == 0 then ""
    else if |parts| == 1 then parts[0]
    else parts[0] + [c] + Join(parts[1..], c)
  }

  /** Splitting loses nothing: joining the segments gives the input back. */
  lemma {:induction false} JoinSplit(s: string, c: char)
    ensures Join(Split(s, c), c) == s
    decreases |s|
  {
    var i := IndexOf(s, c);
    if i != -1 {
      assert s[i] == c by {
        IndexOfFirst(s, c);
      }
      var rest := s[i + 1..];
      JoinSplit(rest, c);
      var parts := Split(s, c);
      assert parts == [s[..i]] + Split(rest, c);
      assert |parts| >= 2;
      assert Join(parts, c) == s[..i] + [c] + Join(Split(rest, c), c) by {
        assert parts[0] == s[..i];
        assert parts[1..] == Split(rest, c);
      }
      assert s == s[..i] + [c] + rest;
    } else {
      assert Split(s, c) == [s];
    }
  }

  /** Segments free of `c` are recovered by splitting their join. */
  lemma {:induction false} SplitJoin(parts: seq<string>, c: char)
    requires |parts| >= 1
    requires forall k :: 0 <= k < |parts| ==> c !in parts[k]
    ensures Split(Join(parts, c), c) == parts
    decreases |parts|
  {
    if |parts| == 1 {
      IndexOfFirst(parts[0], c);
    } else {
      var head, tail := parts[0], Join(parts[1..], c);
      var s := head + [c] + tail;
      assert Join(parts, c) == s;
      assert s[..|head|] == head;
      assert s[|head|] == c;
      var i := IndexOf(s, c);
      IndexOfFirst(s, c);
      assert s[..|head|] == head;
      assert i == |head|;
      assert s[i + 1..] == tail;
      SplitJoin(parts[1..], c);
      assert parts == [head] + parts[1..];
    }
  }

  /** `sub` sits in `s` at position `i`. */
  predicate OccursAt(s: string, sub: string, i: int) {
    0 <= i && i + |sub| <= |s| && s[i..i + |sub|] == sub
  }

  /** `sub` occurs somewhere in `s` (String.Contains(string)). */
  predicate Contains(s: string, sub: string) {
    exists i | 0 <= i <= |s| - |sub| :: OccursAt(s, sub, i)
  }

  /** A text that lacks the `k`-th character of `sub` cannot contain `sub`. */
  lemma NotContainsByChar(s: string, sub: string, k: nat)
    requires k < |sub| && sub[k] !in s
    ensures !Contains(s, sub)
  {
  }

  /** A one-character text occurs in `s` exactly when its character does. */
  lemma ContainsChar(s: string, ch: char)
    ensures Contains(s, [ch]) <==> ch in s
  {
    if ch in s {
      var i :| 0 <= i < |s| && s[i] == ch;
      assert OccursAt(s, [ch], i);
    }
    if Contains(s, [ch]) {
      var i :| 0 <= i <= |s| - 1 && OccursAt(s, [ch], i);
      assert s[i] == s[i..i + 1][0];
    }
  }

  /** ASCII lower-casing of one character. */
  function LowerChar(ch: char): char {
    if 'A' <= ch <= 'Z' then (ch as int - 'A' as int + 'a' as int) as char else ch
  }

  /** String.ToLower() restricted to ASCII: every character lower-cased in place. */
  function ToLower(s: string): string {
    seq(|s|, i requires 0 <= i < |s| => LowerChar(s[i]))
  }
}
