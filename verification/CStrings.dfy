/**
 C strings as the chat server uses them: a buffer is a sequence of characters, the
 C string it holds is what precedes the first NUL, and `strtok` splits at one
 delimiter.
 */
module CStrings {
  const NUL: char := '\0'

  datatype Option<+T> = None | Some(value: T)

  predicate NulFree(s: string) {
    NUL !in s
  }

  function Take(s: string, n: nat): (t: string)
    ensures t <= s && |t| == if |s| <= n then |s| else n
  {
    if |s| <= n then s else s[..n]
  }

  function Rest(s: string, n: nat): string {
    if |s| <= n then "" else s[n..]
  }

  /** The longest prefix of `s` that does not contain `c`. */
  function UpTo(s: string, c: char): (p: string)
    ensures p <= s && c !in p
    ensures |p| < |s| ==> s[|p|] == c
  {
    if s == "" || s[0] == c then "" else [s[0]] + UpTo(s[1..], c)
  }

  /** What `strtok` skips before a token. */
  function SkipLeading(s: string, c: char): (t: string)
    ensures |t| <= |s| && t == s[|s| - |t|..]
    ensures t != "" ==> t[0] != c
  {
    if s != "" && s[0] == c then SkipLeading(s[1..], c) else s
  }

  /** `strtok(s, c)`: the first token, and where the next call resumes. */
  datatype Split = Split(token: Option<string>, rest: string)

  function Strtok(s: string, c: char): Split {
    var t := SkipLeading(s, c);
    if t == "" then Split(None, "")
    else
      var head := UpTo(t, c);
      Split(Some(head), if |head| < |t| then t[|head| + 1..] else "")
  }

  /** `strtok(NULL, "")`: everything that is left, or NULL when nothing is. */
  function StrtokRest(s: Split): Option<string> {
    if s.rest == "" then None else Some(s.rest)
  }

  lemma {:induction false} UpToStopsAt(head: string, c: char, tail: string)
    requires c !in head
    ensures UpTo(head + [c] + tail, c) == head
  {
    var s := head + [c] + tail;
    if head == "" {
    } else {
      assert s[1..] == head[1..] + [c] + tail;
      UpToStopsAt(head[1..], c, tail);
      assert s[0] == head[0];
    }
  }

  lemma {:induction false} UpToWhole(s: string, c: char)
    requires c !in s
    ensures UpTo(s, c) == s
  {
    if s != "" {
      UpToWhole(s[1..], c);
    }
  }

  /** Cutting a text and then stopping at `c` is stopping at `c` and then cutting. */
  lemma {:induction false} UpToOfTake(s: string, c: char, n: nat)
    ensures UpTo(Take(s, n), c) == Take(UpTo(s, c), n)
  {
    if s != "" && s[0] != c && n > 0 {
      assert Take(s, n)[1..] == Take(s[1..], n - 1);
      UpToOfTake(s[1..], c, n - 1);
    }
  }

  /** A token that starts the text and is followed by the delimiter is found whole. */
  lemma StrtokFinds(head: string, c: char, tail: string)
    requires head != "" && c !in head
    ensures Strtok(head + [c] + tail, c) == Split(Some(head), tail)
  {
    var s := head + [c] + tail;
    assert s[0] == head[0];
    assert SkipLeading(s, c) == s;
    UpToStopsAt(head, c, tail);
    assert s[|head| + 1..] == tail;
  }
}
