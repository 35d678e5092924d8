/** Removal of the WOPI placeholders, such as <ui=UI_LLCC&>, from a Collabora urlsrc. */
module Placeholders {

  // The index of the first '>' at or after i, or the end of the string.
  function Closer(s: string, i: nat): (j: nat)
    requires i <= |s|
    ensures i <= j <= |s| && '>' !in s[i..j]
    ensures j < |s| ==> s[j] == '>'
    decreases |s| - i
  {
    if i == |s| || s[i] == '>' then i
    else
      var j := Closer(s, i + 1);
      assert s[i..j] == [s[i]] + s[i + 1..j];
      j
  }

  // What the loop of stripWOPIPlaceholders still appends when it is at position i.
  function StripFrom(s: string, i: nat): string
    requires i <= |s|
    decreases |s| - i
  {
    if i == |s| then ""
    else
      var j := Closer(s, i);
      if s[i] == '<' && j < |s| then StripFrom(s, j + 1) else [s[i]] + StripFrom(s, i + 1)
  }

  method StripWOPIPlaceholders(s: string) returns (result: string)
    ensures result == StripFrom(s, 0)
  {
    result := "";
    var i := 0;
    while i < |s|
      invariant 0 <= i <= |s|
      invariant StripFrom(s, 0) == result + StripFrom(s, i)
    {
      if s[i] == '<' {
        var j := Closer(s, i);
        if j < |s| {
          i := j + 1;
          continue;
        }
      }
      result := result + [s[i]];
      i := i + 1;
    }
  }

  /** Position k lies in a placeholder: a '<' at or before it has not been closed before it,
      and will be closed at or after it. */
  predicate InPlaceholder(s: string, k: nat)
    requires k < |s|
  {
    && (exists p :: 0 <= p <= k && s[p] == '<' && '>' !in s[p..k])
    && '>' in s[k..]
  }

  // The characters of s from position i on that lie in no placeholder, in order.
  function Outside(s: string, i: nat): string
    requires i <= |s|
    decreases |s| - i
  {
    if i == |s| then "" else (if InPlaceholder(s, i) then "" else [s[i]]) + Outside(s, i + 1)
  }

  // No placeholder that begins before i reaches position i.
  ghost predicate Between(s: string, i: nat)
    requires i <= |s|
  {
    '>' in s[i..] ==> forall p :: 0 <= p < i && s[p] == '<' ==> '>' in s[p..i]
  }

  /** Stripping keeps exactly the characters that lie in no placeholder, in their order. */
  lemma {:induction false} StripKeepsTheOutside(s: string, i: nat)
    requires i <= |s| && Between(s, i)
    ensures StripFrom(s, i) == Outside(s, i)
    decreases |s| - i
  {
    hide InPlaceholder, Between, Closer;
    if i < |s| {
      var j := Closer(s, i);
      if s[i] == '<' && j < |s| {
        SkipPlaceholder(s, i, j, i);
        AfterCloser(s, j);
        StripKeepsTheOutside(s, j + 1);
      } else {
        PlainCharacter(s, i, j);
        StripKeepsTheOutside(s, i + 1);
      }
    }
  }

  lemma AfterCloser(s: string, j: nat)
    requires j < |s| && s[j] == '>'
    ensures Between(s, j + 1)
  {
    forall p | 0 <= p < j + 1 && s[p] == '<' ensures '>' in s[p..j + 1] {
      assert s[p..j + 1][j - p] == '>';
    }
  }

  lemma Inside(s: string, i: nat, j: nat, k: nat)
    requires i <= k <= j < |s| && s[i] == '<' && s[j] == '>' && '>' !in s[i..j]
    ensures InPlaceholder(s, k)
  {
    assert s[i..k] == s[i..j][..k - i];
    assert s[k..][j - k] == '>';
  }

  lemma SkipOne(s: string, k: nat)
    requires k < |s| && InPlaceholder(s, k)
    ensures Outside(s, k) == Outside(s, k + 1)
  {
    hide InPlaceholder;
  }

  lemma {:induction false} SkipPlaceholder(s: string, i: nat, j: nat, k: nat)
    requires i <= k <= j < |s| && s[i] == '<' && s[j] == '>' && '>' !in s[i..j]
    ensures Outside(s, k) == Outside(s, j + 1)
    decreases j - k
  {
    hide InPlaceholder, Outside;
    Inside(s, i, j, k);
    SkipOne(s, k);
    if k < j {
      SkipPlaceholder(s, i, j, k + 1);
    }
  }

  // A character that the loop copies lies in no placeholder, and none is open after it.
  lemma PlainCharacter(s: string, i: nat, j: nat)
    requires i < |s| && Between(s, i) && j == Closer(s, i)
    requires s[i] != '<' || j == |s|
    ensures !InPlaceholder(s, i)
    ensures Between(s, i + 1)
  {
    if j == |s| {
      assert s[i..] == s[i..j];
      assert forall c :: c in s[i + 1..] ==> c in s[i..];
      assert '>' !in s[i..];
    } else {
      assert s[i..][j - i] == '>';
      forall p | 0 <= p < i + 1 && s[p] == '<' ensures '>' in s[p..i + 1] {
        assert forall c :: c in s[p..i] ==> c in s[p..i + 1];
      }
    }
  }

  ghost predicate HasPlaceholder(s: string) {
    exists p, q :: 0 <= p < q < |s| && s[p] == '<' && s[q] == '>'
  }

  lemma PairSplits(c: char, rest: string)
    requires HasPlaceholder([c] + rest)
    ensures HasPlaceholder(rest) || (c == '<' && '>' in rest)
  {
    var p, q :| 0 <= p < q < |[c] + rest| && ([c] + rest)[p] == '<' && ([c] + rest)[q] == '>';
    assert rest[q - 1] == '>';
    if p > 0 {
      assert rest[p - 1] == '<';
    }
  }

  lemma SuffixHolds(s: string, i: nat, j: nat)
    requires i <= j <= |s|
    ensures forall c :: c in s[j..] ==> c in s[i..]
  {
    assert s[j..] == s[i..][j - i..];
  }

  // A character and the stripped rest of the string hold no placeholder, unless it opens one.
  lemma PrependPlain(c: char, rest: string)
    requires !HasPlaceholder(rest) && (c == '<' ==> '>' !in rest)
    ensures !HasPlaceholder([c] + rest)
  {
    hide HasPlaceholder;
    if HasPlaceholder([c] + rest) {
      PairSplits(c, rest);
    }
  }

  lemma NothingInNothing()
    ensures !HasPlaceholder("")
  {
  }

  lemma {:induction false} StripLeavesNone(s: string, i: nat)
    requires i <= |s|
    ensures !HasPlaceholder(StripFrom(s, i))
    ensures forall c :: c in StripFrom(s, i) ==> c in s[i..]
    ensures |StripFrom(s, i)| <= |s| - i
    decreases |s| - i
  {
    hide HasPlaceholder, Closer;
    if i == |s| {
      NothingInNothing();
    } else {
      var j := Closer(s, i);
      if s[i] == '<' && j < |s| {
        StripLeavesNone(s, j + 1);
        SuffixHolds(s, i, j + 1);
      } else {
        StripLeavesNone(s, i + 1);
        SuffixHolds(s, i, i + 1);
        assert s[i] == s[i..][0];
        assert s[i] == '<' ==> s[i..] == s[i..j];
        PrependPlain(s[i], StripFrom(s, i + 1));
      }
    }
  }

  lemma {:induction false} NothingToStrip(s: string, i: nat)
    requires i <= |s| && !HasPlaceholder(s)
    ensures StripFrom(s, i) == s[i..]
    decreases |s| - i
  {
    if i < |s| {
      NothingToStrip(s, i + 1);
      assert s[i..] == [s[i]] + s[i + 1..];
    }
  }

  /** The result never holds a '<' with a later '>'; stripping changes a string exactly when
      it holds one; and stripping twice is stripping once. */
  lemma StripIsANormalForm(s: string)
    ensures !HasPlaceholder(StripFrom(s, 0))
    ensures StripFrom(s, 0) == s <==> !HasPlaceholder(s)
    ensures StripFrom(StripFrom(s, 0), 0) == StripFrom(s, 0)
  {
    StripLeavesNone(s, 0);
    NothingToStrip(StripFrom(s, 0), 0);
    if !HasPlaceholder(s) {
      NothingToStrip(s, 0);
    }
  }
}
