/** Splitting text on newlines, in one go and piece by piece. */
module Lines {

  /** Put a character in front of the first line. */
  function Prepend(c: char, lines: seq<string>): (r: seq<string>)
    requires |lines| >= 1
    ensures |r| == |lines|
  {
    [[c] + lines[0]] + lines[1..]
  }

  lemma PrependConcat(c: char, a: seq<string>, b: seq<string>)
    requires |a| >= 1
    ensures Prepend(c, a + b) == Prepend(c, a) + b
  {
    assert (a + b)[1..] == a[1..] + b;
  }

  // text.split("\n")
  function Split(s: string): (r: seq<string>)
    ensures |r| >= 1
  {
    if s == [] then [[]]
    else
      var rest := Split(s[1..]);
      if s[0] == '\n' then [[]] + rest else Prepend(s[0], rest)
  }

  function Init<T>(s: seq<T>): seq<T>
    requires |s| >= 1
  {
    s[..|s| - 1]
  }

  function Last<T>(s: seq<T>): T
    requires |s| >= 1
  {
    s[|s| - 1]
  }

  function Complete(s: string): seq<string> { Init(Split(s)) }
  function Pending(s: string): string { Last(Split(s)) }

  function Front(c: char, lines: seq<string>): (r: seq<string>)
    requires |lines| >= 1
    ensures |r| >= 1
  {
    if c == '\n' then [[]] + lines else Prepend(c, lines)
  }

  lemma SplitFirst(c: char, s: string)
    ensures Split([c] + s) == Front(c, Split(s))
  {
    assert ([c] + s)[1..] == s;
  }

  /** The character goes into the unfinished line when that is the only one. */
  predicate Extends(c: char, lines: seq<string>) { c != '\n' && |lines| == 1 }

  /** One more character in front, in terms of the lines alone. */
  lemma ContinueLines(c: char, lines: seq<string>, rest: seq<string>)
    requires |lines| >= 1 && |rest| >= 1
    ensures Front(c, Init(lines) + rest) ==
            Init(Front(c, lines)) + (if Extends(c, lines) then Front(c, rest) else rest)
    ensures Last(Front(c, lines)) == if Extends(c, lines) then [c] + Last(lines) else Last(lines)
  {
    if c == '\n' {
      assert Init([[]] + lines) == [[]] + Init(lines);
    } else if |lines| > 1 {
      assert Init(Prepend(c, lines)) == Prepend(c, Init(lines));
      PrependConcat(c, Init(lines), rest);
    } else {
      assert Init(lines) + rest == rest && Init(Prepend(c, lines)) == [];
    }
  }

  /** Splitting a longer text only continues its unfinished last line. */
  lemma {:induction false} SplitConcat(a: string, b: string)
    ensures Split(a + b) == Complete(a) + Split(Pending(a) + b)
  {
    if a == [] {
      assert a + b == b && Pending(a) + b == b;
    } else {
      var c, tail := a[0], a[1..];
      assert a == [c] + tail && a + b == [c] + (tail + b);
      SplitConcat(tail, b);
      SplitConcatStep(c, tail, b);
    }
  }

  lemma SplitConcatStep(c: char, s: string, b: string)
    requires Split(s + b) == Complete(s) + Split(Pending(s) + b)
    ensures Split([c] + (s + b)) == Complete([c] + s) + Split(Pending([c] + s) + b)
  {
    SplitFirst(c, s);
    SplitFirst(c, s + b);
    SplitFirst(c, Pending(s) + b);
    ContinueLines(c, Split(s), Split(Pending(s) + b));
    assert [c] + Pending(s) + b == [c] + (Pending(s) + b);
  }

  // text.replace("\x00", "")
  function StripNul(s: string): string {
    if s == [] then [] else (if s[0] == '\0' then [] else [s[0]]) + StripNul(s[1..])
  }

  lemma {:induction false} StripConcat(a: string, b: string)
    ensures StripNul(a + b) == StripNul(a) + StripNul(b)
  {
    if a == [] {
      assert a + b == b;
    } else {
      assert (a + b)[1..] == a[1..] + b;
      StripConcat(a[1..], b);
    }
  }

  /** No element is made up, repeated or moved. */
  predicate Subsequence<T(==)>(a: seq<T>, b: seq<T>) {
    if b == [] then a == []
    else
      || Subsequence(a, b[..|b| - 1])
      || (a != [] && a[|a| - 1] == b[|b| - 1] && Subsequence(a[..|a| - 1], b[..|b| - 1]))
  }

  lemma {:induction false} SubsequenceOfSelf<T>(a: seq<T>)
    ensures Subsequence(a, a)
  {
    if a != [] {
      SubsequenceOfSelf(a[..|a| - 1]);
    }
  }

  lemma {:induction false} SubsequenceConcat<T>(a: seq<T>, b: seq<T>, c: seq<T>, d: seq<T>)
    requires Subsequence(a, b) && Subsequence(c, d)
    ensures Subsequence(a + c, b + d)
    decreases |d|
  {
    if d == [] {
      assert a + c == a && b + d == b;
    } else {
      assert (b + d)[..|b + d| - 1] == b + d[..|d| - 1];
      if Subsequence(c, d[..|d| - 1]) {
        SubsequenceConcat(a, b, c, d[..|d| - 1]);
      } else {
        SubsequenceConcat(a, b, c[..|c| - 1], d[..|d| - 1]);
        assert (a + c)[..|a + c| - 1] == a + c[..|c| - 1];
      }
    }
  }

  lemma {:induction false} PrefixIsSubsequence<T>(a: seq<T>, k: nat)
    requires k <= |a|
    ensures Subsequence(a[..k], a)
    decreases |a|
  {
    if k == |a| {
      assert a[..k] == a;
      SubsequenceOfSelf(a);
    } else {
      assert a[..|a| - 1][..k] == a[..k];
      PrefixIsSubsequence(a[..|a| - 1], k);
    }
  }
}
