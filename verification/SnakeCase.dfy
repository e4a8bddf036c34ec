/** pkg/stringx/strx.go: SnakeCase, on ASCII inputs. */
module SnakeCases {

  predicate Ascii(s: string) { forall i :: 0 <= i < |s| ==> s[i] as int < 128 }

  predicate IsUpper(c: char) { 'A' <= c <= 'Z' }

  predicate IsLower(c: char) { 'a' <= c <= 'z' }

  function ToLower(c: char): char { if IsUpper(c) then (c as int + 32) as char else c }

  /** An underscore that is dropped: a repeated one, or one at the end. */
  predicate Dropped(s: string, i: nat)
    requires i < |s|
  {
    i > 0 && s[i] == '_' && (s[i - 1] == '_' || i == |s| - 1)
  }

  /** The start of a word, unless an underscore precedes it already. */
  predicate Boundary(s: string, i: nat)
    requires i < |s|
  {
    i > 0 && IsUpper(s[i]) && ((i + 1 < |s| && IsLower(s[i + 1])) || IsLower(s[i - 1])) && s[i - 1] != '_'
  }

  /** What position `i` contributes to the output. */
  function Piece(s: string, i: nat): string
    requires i < |s|
  {
    if s[i] == '.' || Dropped(s, i) then ""
    else if Boundary(s, i) then ['_', ToLower(s[i])]
    else [ToLower(s[i])]
  }

  /** What the first `n` positions contribute. */
  function Snake(s: string, n: nat): string
    requires n <= |s|
  {
    if n == 0 then "" else Snake(s, n - 1) + Piece(s, n - 1)
  }

  function SnakeOf(s: string): string { Snake(s, |s|) }

  method SnakeCase(runes: string) returns (out: string)
    ensures out == SnakeOf(runes)
  {
    var length := |runes|;
    out := "";
    var i := 0;
    while i < length
      invariant 0 <= i <= length && out == Snake(runes, i)
    {
      var here := i;
      i := i + 1;
      if runes[here] == '.' {
        continue;
      }
      if here > 0 {
        if (runes[here] == '_' && runes[here - 1] == '_') || (here == length - 1 && runes[here] == '_') {
          continue;
        }
        if IsUpper(runes[here]) && ((here + 1 < length && IsLower(runes[here + 1])) || IsLower(runes[here - 1])) {
          if runes[here - 1] != '_' {
            out := out + ['_'];
          }
        }
      }
      out := out + [ToLower(runes[here])];
    }
  }

  // ---- what every output looks like ---------------------------------------------

  predicate Clean(s: string) { forall i :: 0 <= i < |s| ==> s[i] != '.' && !IsUpper(s[i]) }

  /** No dot or upper-case letter, and at most two characters for one. */
  lemma {:induction false} OutputClean(s: string, n: nat)
    requires n <= |s|
    ensures Clean(Snake(s, n)) && |Snake(s, n)| <= 2 * n
  {
    if n > 0 {
      OutputClean(s, n - 1);
    }
  }

  /** Lower-cased, without dots and underscores. */
  function Bare(s: string): string {
    if s == "" then ""
    else
      var last := s[|s| - 1];
      Bare(s[..|s| - 1]) + if last == '_' || last == '.' then "" else [ToLower(last)]
  }

  lemma {:induction false} BareConcat(a: string, b: string)
    ensures Bare(a + b) == Bare(a) + Bare(b)
    decreases |b|
  {
    if b == "" {
      assert a + b == a;
    } else {
      BareConcat(a, b[..|b| - 1]);
      assert (a + b)[..|a + b| - 1] == a + b[..|b| - 1];
    }
  }

  lemma BarePiece(s: string, i: nat)
    requires i < |s|
    ensures Bare(Piece(s, i)) == if s[i] == '_' || s[i] == '.' then "" else [ToLower(s[i])]
  {
    var piece := Piece(s, i);
    if |piece| == 1 {
      assert piece[..0] == "";
    } else if |piece| == 2 {
      assert piece[..1] == "_" && "_"[..0] == "";
    }
  }

  lemma BareSnoc(s: string, i: nat)
    requires i < |s|
    ensures Bare(s[..i + 1]) == Bare(s[..i]) + if s[i] == '_' || s[i] == '.' then "" else [ToLower(s[i])]
  {
    assert s[..i + 1][..i] == s[..i];
  }

  /** Underscores aside, the output is the lower-cased input without its dots and underscores. */
  lemma {:induction false} OutputLetters(s: string, n: nat)
    requires n <= |s|
    ensures Bare(Snake(s, n)) == Bare(s[..n])
  {
    if n > 0 {
      OutputLetters(s, n - 1);
      BareConcat(Snake(s, n - 1), Piece(s, n - 1));
      BarePiece(s, n - 1);
      BareSnoc(s, n - 1);
    }
  }

  // ---- underscores in the output --------------------------------------------------

  predicate NoDoubles(s: string) { forall i :: 0 < i < |s| && s[i] == '_' ==> s[i - 1] != '_' }

  predicate EndsInUnderscore(s: string) { s != "" && s[|s| - 1] == '_' }

  /** Dots aside, the text ends in an underscore. */
  predicate EndsOpen(s: string) {
    s != "" && (s[|s| - 1] == '_' || (s[|s| - 1] == '.' && EndsOpen(s[..|s| - 1])))
  }

  /** Until the last position, the output ends in an underscore exactly when, dots aside,
      the input so far does. */
  lemma {:induction false} LastUnderscore(s: string, n: nat)
    requires n <= |s| && (1 < n == |s| ==> s[n - 1] != '_')
    ensures EndsInUnderscore(Snake(s, n)) <==> EndsOpen(s[..n])
  {
    if n > 0 {
      assert s[..n][..n - 1] == s[..n - 1];
      LastUnderscore(s, n - 1);
    }
  }

  /** At position `j` a second underscore follows one with only dots between: an underscore
      that is not the last character, or the start of a capitalised word. */
  predicate DoubleAt(s: string, j: nat) {
    && 0 < j < |s| - 1 && s[j - 1] == '.' && EndsOpen(s[..j])
    && (s[j] == '_' || (IsUpper(s[j]) && IsLower(s[j + 1])))
  }

  lemma NoDoublesConcat(a: string, b: string)
    ensures NoDoubles(a + b) <==> NoDoubles(a) && NoDoubles(b) && !(EndsInUnderscore(a) && b != "" && b[0] == '_')
  {
    var s := a + b;
    if NoDoubles(s) {
      forall i | 0 < i < |a| && a[i] == '_'
        ensures a[i - 1] != '_'
      {
        assert s[i] == '_' && s[i - 1] == a[i - 1];
      }
      forall i | 0 < i < |b| && b[i] == '_'
        ensures b[i - 1] != '_'
      {
        assert s[|a| + i] == '_' && s[|a| + i - 1] == b[i - 1];
      }
      assert a != "" && b != "" ==> s[|a| - 1] == a[|a| - 1] && s[|a|] == b[0];
    }
  }

  lemma PieceDouble(s: string, j: nat)
    requires j < |s|
    ensures NoDoubles(Piece(s, j))
    ensures Piece(s, j) != "" && Piece(s, j)[0] == '_' && EndsOpen(s[..j]) <==> DoubleAt(s, j)
  {
    if j > 0 {
      assert s[..j][j - 1] == s[j - 1];
    }
  }

  lemma StepNoDoubles(s: string, n: nat)
    requires 0 < n <= |s|
    ensures NoDoubles(Snake(s, n)) <==> NoDoubles(Snake(s, n - 1)) && !DoubleAt(s, n - 1)
  {
    LastUnderscore(s, n - 1);
    PieceDouble(s, n - 1);
    NoDoublesConcat(Snake(s, n - 1), Piece(s, n - 1));
  }

  lemma {:induction false} OutputNoDoubles(s: string, n: nat)
    requires n <= |s|
    ensures NoDoubles(Snake(s, n)) <==> forall j: nat :: j < n ==> !DoubleAt(s, j)
  {
    if n > 0 {
      OutputNoDoubles(s, n - 1);
      StepNoDoubles(s, n);
      assert (forall j: nat :: j < n ==> !DoubleAt(s, j)) <==> (forall j: nat :: j < n - 1 ==> !DoubleAt(s, j)) && !DoubleAt(s, n - 1);
    }
  }

  // ---- where words start ------------------------------------------------------------

  /** `p` is where the output `o` has the letter of input position `i`: after the same letters. */
  predicate PlaceOf(s: string, o: string, i: nat, p: nat)
    requires i < |s|
  {
    p < |o| && o[p] != '_' && Bare(o[..p]) == Bare(s[..i])
  }

  lemma {:induction false} SnakePrefix(s: string, n: nat, m: nat)
    requires n <= m <= |s|
    ensures Snake(s, n) <= Snake(s, m)
  {
    if n < m {
      SnakePrefix(s, n, m - 1);
    }
  }

  /** An upper-case character at `i` has a lower-case neighbour. */
  predicate LowerBeside(s: string, i: nat)
    requires i < |s|
  {
    (i > 0 && IsLower(s[i - 1])) || (i + 1 < |s| && IsLower(s[i + 1]))
  }

  /** What the output starts with: what is before position `i`, perhaps an underscore, and the letter. */
  lemma LetterAfter(s: string, i: nat)
    requires i < |s| && s[i] != '_' && s[i] != '.'
    ensures var before := Snake(s, i);
            before + (if Boundary(s, i) then "_" else "") + [ToLower(s[i])] <= SnakeOf(s)
    ensures ToLower(s[i]) != '_'
  {
    SnakePrefix(s, i + 1, |s|);
    assert Snake(s, i + 1) == Snake(s, i) + Piece(s, i);
    if Boundary(s, i) {
      assert Piece(s, i) == "_" + [ToLower(s[i])];
      assert Snake(s, i) + "_" + [ToLower(s[i])] == Snake(s, i) + Piece(s, i);
    } else {
      assert Snake(s, i) + "" == Snake(s, i);
    }
  }

  lemma BareMark(before: string, mark: string)
    requires mark in {"", "_"}
    ensures Bare(before + mark) == Bare(before)
  {
    BareConcat(before, mark);
    assert "_"[..0] == "";
  }

  /** Whether the output so far ends in an underscore. */
  lemma UnderscoreBefore(s: string, i: nat)
    requires i < |s| && s[i] != '_' && s[i] != '.'
    ensures EndsInUnderscore(Snake(s, i) + if Boundary(s, i) then "_" else "") <==>
              EndsOpen(s[..i]) || (i > 0 && IsUpper(s[i]) && LowerBeside(s, i))
  {
    LastUnderscore(s, i);
    assert Snake(s, i) + "" == Snake(s, i);
    if i > 0 && s[i - 1] == '_' {
      assert s[..i][i - 1] == '_';
    }
  }

  lemma LetterPlace(s: string, i: nat) returns (p: nat)
    requires i < |s| && s[i] != '_' && s[i] != '.'
    ensures var o := SnakeOf(s);
            && PlaceOf(s, o, i, p) && o[p] == ToLower(s[i])
            && (p > 0 && o[p - 1] == '_' <==> EndsOpen(s[..i]) || (i > 0 && IsUpper(s[i]) && LowerBeside(s, i)))
  {
    var o, mark := SnakeOf(s), if Boundary(s, i) then "_" else "";
    var front := Snake(s, i) + mark;
    LetterAfter(s, i);
    p := |front|;
    assert o[..p] == front && o[p] == ToLower(s[i]);
    OutputLetters(s, i);
    BareMark(Snake(s, i), mark);
    UnderscoreBefore(s, i);
    assert p > 0 ==> o[p - 1] == front[p - 1];
  }

  lemma BareGrows(o: string, p: nat, q: nat)
    requires p < q <= |o| && o[p] != '_' && o[p] != '.'
    ensures |Bare(o[..p])| < |Bare(o[..q])|
  {
    assert o[..p + 1][..p] == o[..p];
    BareConcat(o[..p + 1], o[p + 1..q]);
    assert o[..q] == o[..p + 1] + o[p + 1..q];
  }

  lemma OnePlace(s: string, o: string, i: nat, p: nat, q: nat)
    requires i < |s| && Clean(o) && PlaceOf(s, o, i, p) && PlaceOf(s, o, i, q)
    ensures p == q
  {
    if p < q {
      BareGrows(o, p, q);
    } else if q < p {
      BareGrows(o, q, p);
    }
  }

  /** For ASCII inputs: the output has each letter in lower case, and an underscore directly
      before it iff, dots aside, the input has one there, or the letter is a capital with a
      lower-case neighbour and not the first character. */
  lemma WordStarts(s: string, i: nat, p: nat)
    requires Ascii(s) && i < |s| && s[i] != '_' && s[i] != '.' && PlaceOf(s, SnakeOf(s), i, p)
    ensures var o := SnakeOf(s);
            && o[p] == ToLower(s[i])
            && (p > 0 && o[p - 1] == '_' <==> EndsOpen(s[..i]) || (i > 0 && IsUpper(s[i]) && LowerBeside(s, i)))
  {
    var q := LetterPlace(s, i);
    OutputClean(s, |s|);
    OnePlace(s, SnakeOf(s), i, p, q);
  }

  /** So every character is kept or lower-cased; a capital after another letter starts a word
      iff one of its neighbours is lower-case, and after a dot that stands at no underscore
      iff the next one is; and other characters never start one. */
  lemma CapitalStarts(s: string, i: nat, p: nat)
    requires Ascii(s) && 0 < i < |s| && s[i] != '_' && s[i] != '.' && PlaceOf(s, SnakeOf(s), i, p)
    ensures var o := SnakeOf(s);
            var split, capital := p > 0 && o[p - 1] == '_', 'A' <= s[i] <= 'Z';
            && o[p] == (if capital then (s[i] as int + 32) as char else s[i])
            && (capital && s[i - 1] != '_' && s[i - 1] != '.' ==>
                  (split <==> 'a' <= s[i - 1] <= 'z' || (i + 1 < |s| && 'a' <= s[i + 1] <= 'z')))
            && (capital && s[i - 1] == '.' && !EndsOpen(s[..i]) ==> (split <==> i + 1 < |s| && 'a' <= s[i + 1] <= 'z'))
            && (!capital && s[i - 1] != '_' && s[i - 1] != '.' ==> !split)
            && (s[i - 1] == '_' ==> split)
  {
    WordStarts(s, i, p);
    assert s[..i][i - 1] == s[i - 1];
  }

  // ---- idempotence ------------------------------------------------------------------

  /** On a clean text without doubles only an underscore at the end can go. */
  lemma {:induction false} SnakeOfClean(o: string, n: nat)
    requires Clean(o) && NoDoubles(o) && n <= |o|
    ensures Snake(o, n) == if n > 1 && n == |o| && o[n - 1] == '_' then o[..n - 1] else o[..n]
  {
    if n > 0 {
      SnakeOfClean(o, n - 1);
      assert o[n - 1] != '.' && !IsUpper(o[n - 1]);
    }
  }

  predicate OnlyMarks(s: string) { forall i :: 0 <= i < |s| ==> s[i] == '_' || s[i] == '.' }

  lemma {:induction false} BareEmpty(s: string)
    ensures Bare(s) == "" <==> OnlyMarks(s)
  {
    if s != "" {
      BareEmpty(s[..|s| - 1]);
    }
  }

  /** The text without an underscore at its end that is dropped there. */
  function Trimmed(s: string): string {
    if |s| > 1 && s[|s| - 1] == '_' then s[..|s| - 1] else s
  }

  /** The output ends in an underscore that a second pass drops. */
  predicate ShrinksAgain(s: string) { EndsOpen(Trimmed(s)) && !OnlyMarks(s) }

  /** The output has two underscores in a row, of which a second pass drops one. */
  predicate Doubles(s: string) { exists j: nat :: j < |s| && DoubleAt(s, j) }

  lemma OutputEnd(s: string)
    ensures EndsInUnderscore(SnakeOf(s)) <==> EndsOpen(Trimmed(s))
  {
    if |s| > 1 && s[|s| - 1] == '_' {
      LastUnderscore(s, |s| - 1);
    } else {
      LastUnderscore(s, |s|);
      assert s[..|s|] == s;
    }
  }

  /** An output that ends in an underscore is longer than that unless the input is all marks. */
  lemma OutputLength(s: string)
    requires EndsInUnderscore(SnakeOf(s)) && NoDoubles(SnakeOf(s))
    ensures |SnakeOf(s)| > 1 <==> !OnlyMarks(s)
  {
    var o := SnakeOf(s);
    OutputClean(s, |s|);
    OutputLetters(s, |s|);
    assert s[..|s|] == s;
    BareEmpty(s);
    BareEmpty(o);
  }

  /** For ASCII inputs: no dot, no capital, at most twice as long, the same letters, and
      without dots no underscore twice in a row. */
  lemma SnakeCaseMeaning(s: string)
    requires Ascii(s)
    ensures Clean(SnakeOf(s)) && |SnakeOf(s)| <= 2 * |s| && Bare(SnakeOf(s)) == Bare(s)
    ensures forall i :: 0 <= i < |SnakeOf(s)| ==> SnakeOf(s)[i] != '.' && !('A' <= SnakeOf(s)[i] <= 'Z')
    ensures NoDoubles(SnakeOf(s)) <==> !Doubles(s)
    ensures '.' !in s ==> NoDoubles(SnakeOf(s))
  {
    OutputClean(s, |s|);
    OutputLetters(s, |s|);
    assert s[..|s|] == s;
    OutputNoDoubles(s, |s|);
  }

  /** For every ASCII input: a second pass changes nothing iff the input neither makes an
      underscore appear twice in a row nor leaves one at the end. */
  lemma IdempotentIff(s: string)
    requires Ascii(s)
    ensures SnakeOf(SnakeOf(s)) == SnakeOf(s) <==> !Doubles(s) && !ShrinksAgain(s)
  {
    var o := SnakeOf(s);
    OutputClean(s, |s|);
    OutputNoDoubles(s, |s|);
    OutputNoDoubles(o, |o|);
    if NoDoubles(o) {
      SnakeOfClean(o, |o|);
      OutputEnd(s);
      if EndsInUnderscore(o) {
        OutputLength(s);
      }
      assert o[..|o|] == o;
    }
  }

  /** Without dots that is: the input does not end in two underscores after something else. */
  lemma IdempotentWithoutDots(s: string)
    requires Ascii(s) && '.' !in s
    ensures SnakeOf(SnakeOf(s)) == SnakeOf(s) <==>
              !("__" <= s[if |s| < 2 then 0 else |s| - 2..] && exists i :: 0 <= i < |s| && s[i] != '_')
  {
    IdempotentIff(s);
    assert forall i :: 0 <= i < |s| ==> s[i] != '.';
    if |s| >= 2 {
      var end := s[|s| - 2..];
      assert "__" <= end <==> end[0] == '_' && end[1] == '_';
    }
  }

  /** An input with a dot, otherwise harmless, on which the second pass drops an underscore. */
  lemma DottedNotIdempotent()
    ensures SnakeOf("a_.") == "a_" && SnakeOf("a_") == "a"
  {
    assert Snake("a_.", 0) == "" && Snake("a_.", 1) == "a" && Snake("a_.", 2) == "a_" && Snake("a_.", 3) == "a_";
    assert Snake("a_", 0) == "" && Snake("a_", 1) == "a" && Snake("a_", 2) == "a";
  }
}
