/** The string operations the categoriser and the importer rely on:
    `toLowerCase`, `includes` and the last piece of a split at '.'. */
module Text {

  /** `toLowerCase` on one character; only ASCII letters are mapped. */
  function LowerChar(c: char): char
  {
    if 'A' <= c <= 'Z' then (c as int + 32) as char else c
  }

  function Lower(s: string): (r: string)
    ensures |r| == |s|
    ensures forall i :: 0 <= i < |s| ==> r[i] == LowerChar(s[i])
  {
    if s == [] then [] else [LowerChar(s[0])] + Lower(s[1..])
  }

  predicate StartsWith(s: string, prefix: string)
  {
    |prefix| <= |s| && s[..|prefix|] == prefix
  }

  /** `includes`: `word` occurs in `s` starting at some position. */
  predicate Contains(s: string, word: string)
    decreases |s|
  {
    StartsWith(s, word) || (|s| > 0 && Contains(s[1..], word))
  }

  /** Lower-casing twice is lower-casing once. */
  lemma {:induction false} LowerIdempotent(s: string)
    ensures Lower(Lower(s)) == Lower(s)
  {
  }

  /** `word` occurs in `s` at position `i`. */
  predicate OccursAt(s: string, word: string, i: nat)
  {
    i + |word| <= |s| && s[i..i + |word|] == word
  }

  /** An occurrence one place into `s` is an occurrence in its tail. */
  lemma {:induction false} OccursAtTail(s: string, word: string, i: nat)
    requires s != []
    ensures OccursAt(s, word, i + 1) <==> OccursAt(s[1..], word, i)
  {
    if i + 1 + |word| <= |s| {
      assert s[i + 1..i + 1 + |word|] == s[1..][i..i + |word|];
    }
  }

  /** `Contains` agrees with the positional definition of a substring. */
  lemma {:induction false} ContainsAt(s: string, word: string)
    ensures Contains(s, word) <==> exists i: nat :: OccursAt(s, word, i)
    decreases |s|
  {
    if StartsWith(s, word) {
      assert OccursAt(s, word, 0);
    } else if s != [] {
      ContainsAt(s[1..], word);
      if Contains(s[1..], word) {
        var i: nat :| OccursAt(s[1..], word, i);
        OccursAtTail(s, word, i);
      } else {
        forall i: nat
          ensures !OccursAt(s, word, i)
        {
          if i > 0 {
            OccursAtTail(s, word, i - 1);
          }
        }
      }
    } else {
      forall i: nat ensures !OccursAt(s, word, i) {
      }
    }
  }

  /** No non-empty word occurs in the empty string. */
  lemma {:induction false} EmptyContainsNothing(word: string)
    requires word != []
    ensures !Contains([], word)
  {
  }

  /** The text after the last '.' of `s`, or all of `s` when it has no '.':
      the last piece when `s` is split at every '.'. */
  function AfterLastDot(s: string): (r: string)
    ensures |r| <= |s| && r == s[|s| - |r|..]
    ensures '.' !in r
    ensures '.' in s ==> s[|s| - |r| - 1] == '.'
    ensures '.' !in s ==> r == s
  {
    if s == [] then []
    else if s[|s| - 1] == '.' then []
    else AfterLastDot(s[..|s| - 1]) + [s[|s| - 1]]
  }
}
