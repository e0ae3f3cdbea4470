/**
  The few PHP built-ins the cost-centre pipeline depends on, stated over
  Dafny values: truthiness of strings, `implode`/`explode` with the ", "
  separator, `array_unique`, and the `str_replace`/`ucwords` pair that turns
  a meta key into a display label.
 */
module Php {

  /** PHP's `null`/`false` versus a present value. */
  datatype Option<T> = None | Some(value: T)

  /** A PHP string is falsy exactly when it is "" or "0". */
  predicate Truthy(s: string) {
    s != "" && s != "0"
  }

  // ---------------------------------------------------------------------
  // implode(', ', ...) and its inverse explode(', ', ...)
  // ---------------------------------------------------------------------

  /** The separator the plugin joins cost-centre ids with. */
  const Separator: string := ", "

  /** `implode(", ", xs)`. */
  function Implode(xs: seq<string>): string
  {
    if xs == [] then ""
    else if |xs| == 1 then xs[0]
    else xs[0] + Separator + Implode(xs[1..])
  }

  /** `explode(", ", s)`: cuts `s` at every occurrence of ", ", left to right. */
  function Explode(s: string): (r: seq<string>)
    ensures |r| >= 1
    decreases |s|
  {
    if |s| < 2 then [s]
    else if s[..2] == Separator then [""] + Explode(s[2..])
    else
      var rest := Explode(s[1..]);
      [[s[0]] + rest[0]] + rest[1..]
  }

  /** An id that cannot be confused with the separator. */
  predicate CommaFree(s: string) {
    ',' !in s
  }

  lemma {:induction false} ExplodeCommaFree(a: string)
    requires CommaFree(a)
    ensures Explode(a) == [a]
    decreases |a|
  {
    if |a| >= 2 {
      assert a[..2][0] == a[0];
      assert a[..2] != Separator;
      ExplodeCommaFree(a[1..]);
      assert [a[0]] + a[1..] == a;
    }
  }

  lemma {:induction false} ExplodeAfterCommaFree(a: string, t: string)
    requires CommaFree(a)
    ensures Explode(a + Separator + t) == [a] + Explode(t)
    decreases |a|
  {
    var s := a + Separator + t;
    if a == [] {
      assert s[..2] == Separator;
      assert s[2..] == t;
    } else {
      assert s[..2][0] == a[0];
      assert s[..2] != Separator;
      ExplodeAfterCommaFree(a[1..], t);
      assert s[1..] == a[1..] + Separator + t;
      assert [a[0]] + a[1..] == a;
    }
  }

  /** Joining ids that contain no comma loses nothing: exploding the joined
      string gives back exactly the ids, in order. */
  lemma {:induction false} ExplodeImplode(xs: seq<string>)
    requires xs != []
    requires forall i :: 0 <= i < |xs| ==> CommaFree(xs[i])
    ensures Explode(Implode(xs)) == xs
  {
    if |xs| == 1 {
      ExplodeCommaFree(xs[0]);
    } else {
      ExplodeImplode(xs[1..]);
      ExplodeAfterCommaFree(xs[0], Implode(xs[1..]));
      assert [xs[0]] + xs[1..] == xs;
    }
  }

  /** The joined string is empty exactly when there is nothing to join, or a
      single empty id. */
  lemma ImplodeEmpty(xs: seq<string>)
    ensures Implode(xs) == "" <==> xs == [] || xs == [""]
  {
  }

  /** A join of two or more ids contains the separator, so it is truthy; a
      join of one id is that id. */
  lemma ImplodeTruthy(xs: seq<string>)
    ensures Truthy(Implode(xs)) <==> |xs| >= 2 || (|xs| == 1 && Truthy(xs[0]))
  {
  }

  // ---------------------------------------------------------------------
  // array_unique
  // ---------------------------------------------------------------------

  ghost predicate NoDuplicates(s: seq<string>) {
    forall i, j :: 0 <= i < j < |s| ==> s[i] != s[j]
  }

  /** The position of the first occurrence of `x` in `xs`. */
  function FirstIndex(xs: seq<string>, x: string): (k: nat)
    requires x in xs
    ensures k < |xs| && xs[k] == x && x !in xs[..k]
  {
    if xs[0] == x then 0
    else
      var k' := FirstIndex(xs[1..], x);
      assert xs[..k' + 1] == [xs[0]] + xs[1..][..k'];
      1 + k'
  }

  /** `array_unique(xs)`: drops every element already seen earlier, so that
      each value is kept at its first occurrence. */
  function Unique(xs: seq<string>): (r: seq<string>)
    ensures forall x :: x in r <==> x in xs
    ensures NoDuplicates(r)
  {
    if xs == [] then []
    else
      var init := xs[..|xs| - 1];
      var last := xs[|xs| - 1];
      assert xs == init + [last];
      var r0 := Unique(init);
      if last in r0 then r0 else r0 + [last]
  }

  /** One more element: `array_unique` keeps it exactly when it is new. */
  lemma UniqueSnoc(xs: seq<string>, x: string)
    ensures Unique(xs + [x]) == if x in xs then Unique(xs) else Unique(xs) + [x]
  {
  }

  /** The conditions of FirstIndex's contract single out one position. */
  lemma FirstIndexIsUnique(xs: seq<string>, x: string, k: nat)
    requires k < |xs| && xs[k] == x && x !in xs[..k]
    ensures FirstIndex(xs, x) == k
  {
  }

  lemma FirstIndexOfPrefix(a: seq<string>, b: seq<string>, x: string)
    requires x in a
    ensures FirstIndex(a + b, x) == FirstIndex(a, x)
  {
    var k := FirstIndex(a, x);
    assert (a + b)[..k] == a[..k];
    FirstIndexIsUnique(a + b, x, k);
  }

  ghost predicate InFirstOccurrenceOrder(xs: seq<string>, r: seq<string>)
    requires forall x :: x in r ==> x in xs
  {
    forall i, j :: 0 <= i < j < |r| ==> FirstIndex(xs, r[i]) < FirstIndex(xs, r[j])
  }

  /** `array_unique` keeps the elements in the order of their first
      occurrence. */
  lemma {:induction false} UniqueKeepsFirstOccurrenceOrder(xs: seq<string>)
    ensures InFirstOccurrenceOrder(xs, Unique(xs))
  {
    if xs != [] {
      var n := |xs| - 1;
      var init, last := xs[..n], xs[n];
      assert xs == init + [last];
      UniqueKeepsFirstOccurrenceOrder(init);
      var u := Unique(init);
      forall y | y in init
        ensures FirstIndex(xs, y) == FirstIndex(init, y)
      {
        FirstIndexOfPrefix(init, [last], y);
      }
      if last !in u {
        FirstIndexIsUnique(xs, last, n);
        assert Unique(xs) == u + [last];
      }
    }
  }

  /** No duplicates, the same elements and first-occurrence order determine
      the result: any list with these three properties is `Unique(xs)`. */
  lemma {:induction false} UniqueCharacterized(xs: seq<string>, r: seq<string>)
    requires NoDuplicates(r)
    requires forall x :: x in r <==> x in xs
    requires InFirstOccurrenceOrder(xs, r)
    ensures r == Unique(xs)
  {
    if xs == [] {
      if r != [] { HeadIsMember(r); assert false; }
    } else {
      var n := |xs| - 1;
      var init, last := xs[..n], xs[n];
      assert xs == init + [last];
      if last in init {
        CharacterizedOnPrefix(xs, r);
        UniqueCharacterized(init, r);
      } else {
        NewLastComesLast(xs, r);
        var front := r[..|r| - 1];
        assert r == front + [last];
        assert forall i :: 0 <= i < |front| ==> front[i] == r[i] && r[i] != last;
        CharacterizedOnPrefix(xs, front);
        forall x
          ensures x in front <==> x in init
        {
          assert x in r <==> x in front || x == last;
        }
        UniqueCharacterized(init, front);
      }
    }
  }

  /** The first element of a non-empty list is one of its members. */
  lemma HeadIsMember(r: seq<string>)
    requires r != []
    ensures r[0] in r
  {
  }

  /** A list that satisfies the characterization for `xs` and avoids the last
      element of `xs` (unless it occurs earlier) satisfies it for the prefix. */
  lemma CharacterizedOnPrefix(xs: seq<string>, r: seq<string>)
    requires xs != []
    requires NoDuplicates(r)
    requires forall x :: x in r ==> x in xs
    requires InFirstOccurrenceOrder(xs, r)
    requires forall x :: x in r ==> x in xs[..|xs| - 1]
    ensures InFirstOccurrenceOrder(xs[..|xs| - 1], r)
  {
  }

  /** When the last element of `xs` is new, it has the largest first index, so
      an ordered list ends with it. */
  lemma NewLastComesLast(xs: seq<string>, r: seq<string>)
    requires xs != [] && xs[|xs| - 1] !in xs[..|xs| - 1]
    requires forall x :: x in r <==> x in xs
    requires InFirstOccurrenceOrder(xs, r)
    ensures r != [] && r[|r| - 1] == xs[|xs| - 1]
  {
    var n := |xs| - 1;
    FirstIndexIsUnique(xs, xs[n], n);
    assert xs[n] in r;
    var p :| 0 <= p < |r| && r[p] == xs[n];
    assert FirstIndex(xs, r[|r| - 1]) <= n;
  }

  /** In a list without duplicates every element occurs first where it is. */
  lemma OnlyOccurrence(u: seq<string>, i: nat)
    requires NoDuplicates(u) && i < |u|
    ensures FirstIndex(u, u[i]) == i
  {
  }

  /** Deduplicating twice is the same as deduplicating once. */
  lemma UniqueIdempotent(xs: seq<string>)
    ensures Unique(Unique(xs)) == Unique(xs)
  {
  }

  // ---------------------------------------------------------------------
  // str_replace('_', ' ', ...) and ucwords(...)
  // ---------------------------------------------------------------------

  /** `str_replace(from, to, s)` for a one-character search and replacement. */
  function ReplaceChar(s: string, from: char, to: char): (r: string)
    ensures |r| == |s|
    ensures from != to ==> from !in r
  {
    seq(|s|, i requires 0 <= i < |s| => if s[i] == from then to else s[i])
  }

  /** The characters after which `ucwords` starts a new word: space, tab,
      carriage return, newline, form feed and vertical tab. */
  predicate WordDelimiter(c: char) {
    c == ' ' || c == '\t' || c == '\r' || c == '\n' || c as int == 12 || c as int == 11
  }

  /** A character `toupper` leaves as it is. */
  predicate ToUpperFixed(c: char) {
    !('a' <= c <= 'z')
  }

  /** `toupper` on ASCII letters. */
  function ToUpper(c: char): (u: char)
    ensures WordDelimiter(u) <==> WordDelimiter(c)
    ensures ToUpperFixed(u)
  {
    if 'a' <= c <= 'z' then (c as int - 32) as char else c
  }

  /** `ucwords(s)`: upper-cases the first character and every character
      that follows a word delimiter. */
  function Ucwords(s: string): (r: string)
    ensures |r| == |s|
  {
    seq(|s|, i requires 0 <= i < |s| => UcwordsAt(s, i))
  }

  /** The character `ucwords` puts at position `i`. */
  function UcwordsAt(s: string, i: nat): char
    requires i < |s|
  {
    if i == 0 || WordDelimiter(s[i - 1]) then ToUpper(s[i]) else s[i]
  }

  /** The label the admin screen prints for a meta key:
      `ucwords(str_replace('_', ' ', key))`. */
  function MetaKeyLabel(key: string): (title: string)
    ensures |title| == |key|
    ensures '_' !in title
  {
    Ucwords(ReplaceChar(key, '_', ' '))
  }
}
