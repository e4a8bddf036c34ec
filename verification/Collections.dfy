/** Sequence, multiset and map facts that several components share. */
module Collections {

  datatype Option<+T> = None | Some(value: T)

  datatype Result<+T> = Success(value: T) | Failure

  function Min(a: int, b: int): int { if a <= b then a else b }

  /** strings.Contains */
  predicate Contains(s: string, part: string) { part <= s || (s != "" && Contains(s[1..], part)) }

  predicate OccursAt(s: string, part: string, i: nat) { i + |part| <= |s| && s[i..i + |part|] == part }

  lemma {:induction false} ContainsMeaning(s: string, part: string)
    ensures Contains(s, part) <==> exists i: nat :: OccursAt(s, part, i)
  {
    if part <= s {
      assert OccursAt(s, part, 0);
    } else if s != "" {
      ContainsMeaning(s[1..], part);
      forall i: nat
        ensures OccursAt(s, part, i + 1) <==> OccursAt(s[1..], part, i)
      {
        if i + 1 + |part| <= |s| {
          assert s[1..][i..i + |part|] == s[i + 1..i + 1 + |part|];
        }
      }
      if i: nat :| OccursAt(s[1..], part, i) {
        assert OccursAt(s, part, i + 1);
      }
      if i: nat :| OccursAt(s, part, i) {
        assert i > 0 ==> OccursAt(s[1..], part, i - 1);
      }
    }
  }

  // ---- sequences ----------------------------------------------------------

  function Reverse<T>(s: seq<T>): (r: seq<T>)
    ensures |r| == |s|
  {
    if s == [] then [] else Reverse(s[1..]) + [s[0]]
  }

  lemma {:induction false} ReverseLast<T>(s: seq<T>)
    requires s != []
    ensures Reverse(s) == [s[|s| - 1]] + Reverse(s[..|s| - 1])
  {
    if |s| > 1 {
      ReverseLast(s[1..]);
      assert s[1..][..|s| - 2] == s[..|s| - 1][1..];
    }
  }

  lemma {:induction false} ReverseMembers<T>(s: seq<T>)
    ensures forall x :: x in Reverse(s) <==> x in s
  {
    if s != [] {
      ReverseMembers(s[1..]);
    }
  }

  /** The elements that satisfy `keep`, in their order. */
  function Select<T>(keep: T -> bool, s: seq<T>): (r: seq<T>)
    ensures |r| <= |s|
  {
    if s == [] then []
    else if keep(s[0]) then [s[0]] + Select(keep, s[1..])
    else Select(keep, s[1..])
  }

  lemma {:induction false} SelectMembers<T>(keep: T -> bool, s: seq<T>)
    ensures forall x :: x in Select(keep, s) <==> x in s && keep(x)
  {
    if s != [] {
      SelectMembers(keep, s[1..]);
    }
  }

  lemma {:induction false} SelectConcat<T>(keep: T -> bool, a: seq<T>, b: seq<T>)
    ensures Select(keep, a + b) == Select(keep, a) + Select(keep, b)
  {
    if a == [] {
      assert a + b == b;
    } else {
      SelectConcat(keep, a[1..], b);
      var whole := a + b;
      assert whole[0] == a[0] && whole[1..] == a[1..] + b;
      var front, back := Select(keep, a[1..]), Select(keep, b);
      assert Select(keep, whole[1..]) == front + back;
      if keep(a[0]) {
        assert [a[0]] + (front + back) == ([a[0]] + front) + back;
      }
    }
  }

  lemma {:induction false} SelectPart<T>(keep: T -> bool, s: seq<T>)
    ensures multiset(Select(keep, s)) <= multiset(s)
  {
    if s != [] {
      SelectPart(keep, s[1..]);
      assert s == [s[0]] + s[1..];
    }
  }

  function Repeat<T>(x: T, n: nat): (r: seq<T>)
    ensures |r| == n
  {
    if n == 0 then [] else [x] + Repeat(x, n - 1)
  }

  lemma {:induction false} RepeatAt<T>(x: T, n: nat)
    ensures forall i :: 0 <= i < n ==> Repeat(x, n)[i] == x
  {
    if n > 0 {
      RepeatAt(x, n - 1);
    }
  }
}
