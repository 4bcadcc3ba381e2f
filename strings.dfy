/** The few Python string operations the core uses, on seq<char>. */
module Strings {

  /** The index of the first c in s (`s.find(c)`), or |s| when there is none. */
  function IndexOf(s: string, c: char): (k: nat)
    ensures k <= |s|
    ensures forall i :: 0 <= i < k ==> s[i] != c
    ensures k < |s| ==> s[k] == c
  {
    if s == [] then 0 else if s[0] == c then 0 else 1 + IndexOf(s[1..], c)
  }

  /** `s.replace(c, '')`. */
  function Remove(s: string, c: char): (r: string)
    ensures forall i :: 0 <= i < |r| ==> r[i] != c
  {
    if s == [] then [] else (if s[0] == c then [] else [s[0]]) + Remove(s[1..], c)
  }

  /** `s.split(c)`: the pieces between occurrences of c. */
  function Split(s: string, c: char): (parts: seq<string>)
    ensures |parts| >= 1
    decreases |s|
  {
    var k := IndexOf(s, c);
    if k == |s| then [s] else [s[..k]] + Split(s[k + 1..], c)
  }

  /** `s.upper()` for ASCII letters; other characters are kept. */
  function Upper(s: string): (r: string)
    ensures |r| == |s|
    ensures forall i :: 0 <= i < |s| ==> r[i] == UpperChar(s[i])
  {
    if s == [] then [] else [UpperChar(s[0])] + Upper(s[1..])
  }

  function UpperChar(c: char): char
  {
    if 'a' <= c <= 'z' then (c as int - 'a' as int + 'A' as int) as char else c
  }

  predicate Free(s: string, c: char)
  {
    forall i :: 0 <= i < |s| ==> s[i] != c
  }

  lemma {:induction false} IndexOfAbsent(s: string, c: char)
    requires Free(s, c)
    ensures IndexOf(s, c) == |s|
  {
    if s != [] {
      IndexOfAbsent(s[1..], c);
    }
  }

  lemma {:induction false} IndexOfAfter(a: string, c: char, b: string)
    requires Free(a, c)
    ensures IndexOf(a + [c] + b, c) == |a|
  {
    if a != [] {
      assert (a + [c] + b)[1..] == a[1..] + [c] + b;
      IndexOfAfter(a[1..], c, b);
    }
  }

  lemma {:induction false} RemoveAppend(a: string, b: string, c: char)
    ensures Remove(a + b, c) == Remove(a, c) + Remove(b, c)
    decreases |a|
  {
    if a != [] {
      assert (a + b)[1..] == a[1..] + b;
      RemoveAppend(a[1..], b, c);
    } else {
      assert a + b == b;
    }
  }

  /** Every c goes and every other character stays, as often as it occurred. */
  lemma {:induction false} RemoveCounts(s: string, c: char)
    ensures multiset(Remove(s, c)) == multiset(s)[c := 0]
  {
    if s != [] {
      RemoveCounts(s[1..], c);
      assert s == [s[0]] + s[1..];
    }
  }

  lemma {:induction false} RemoveAbsent(s: string, c: char)
    requires Free(s, c)
    ensures Remove(s, c) == s
  {
    if s != [] {
      RemoveAbsent(s[1..], c);
    }
  }

  lemma {:induction false} SplitAfter(a: string, c: char, b: string)
    requires Free(a, c)
    ensures Split(a + [c] + b, c) == [a] + Split(b, c)
  {
    var s := a + [c] + b;
    IndexOfAfter(a, c, b);
    assert s[..|a|] == a;
    assert s[|a| + 1..] == b;
  }

  /** A string free of c splits into itself. */
  lemma SplitFree(d: string, c: char)
    requires Free(d, c)
    ensures Split(d, c) == [d]
  {
    IndexOfAbsent(d, c);
  }

  /** One c between two c-free pieces splits into the two pieces. */
  lemma SplitTwo(b: string, d: string, c: char)
    requires Free(b, c) && Free(d, c)
    ensures Split(b + [c] + d, c) == [b, d]
  {
    SplitAfter(b, c, d);
    SplitFree(d, c);
  }

  lemma ConcatRegroup(a: string, b: string, d: string, c: char)
    ensures a + [c] + b + [c] + d == a + [c] + (b + [c] + d)
  {
  }

  /** Joining pieces free of c with c and splitting on c gives the pieces back. */
  lemma {:induction false} SplitJoin3(a: string, b: string, d: string, c: char)
    requires Free(a, c) && Free(b, c) && Free(d, c)
    ensures Split(a + [c] + b + [c] + d, c) == [a, b, d]
  {
    var rest := b + [c] + d;
    calc {
      Split(a + [c] + b + [c] + d, c);
      { ConcatRegroup(a, b, d, c); }
      Split(a + [c] + rest, c);
      { SplitAfter(a, c, rest); }
      [a] + Split(rest, c);
      { SplitTwo(b, d, c); }
      [a] + [b, d];
    }
  }

  /** Around its first c, a string splits one way only. */
  lemma JoinInjective(x: string, y: string, x': string, y': string, c: char)
    requires Free(x, c) && Free(x', c)
    requires x + [c] + y == x' + [c] + y'
    ensures x == x' && y == y'
  {
    var s := x + [c] + y;
    IndexOfAfter(x, c, y);
    IndexOfAfter(x', c, y');
    assert s[..|x|] == x && s[..|x'|] == x';
    assert s[|x| + 1..] == y && s[|x'| + 1..] == y';
  }
}
