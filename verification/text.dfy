/**
 Text primitives the scorer is built from: ASCII case mapping and substring
 containment (Python's `str.lower` restricted to ASCII and the `in` operator
 on strings), together with the facts about them that the scorer relies on.
 */
module Text {

  predicate IsUpper(c: char) {
    'A' <= c <= 'Z'
  }

  predicate IsLower(c: char) {
    'a' <= c <= 'z'
  }

  /** ASCII lower-casing of one character; every other character is kept. */
  function LowerChar(c: char): (r: char)
    ensures !IsUpper(r)
    ensures !IsUpper(c) ==> r == c
    ensures IsUpper(c) ==> IsLower(r) && r as int - c as int == 'a' as int - 'A' as int
  {
    if IsUpper(c) then (c as int + ('a' as int - 'A' as int)) as char else c
  }

  /** ASCII upper-casing of one character; every other character is kept. */
  function UpperChar(c: char): (r: char)
    ensures !IsLower(r)
    ensures !IsLower(c) ==> r == c
    ensures IsLower(c) ==> IsUpper(r) && LowerChar(r) == c
  {
    if IsLower(c) then (c as int - ('a' as int - 'A' as int)) as char else c
  }

  /** `s.lower()`, for the ASCII letters: no capital is left, and every other character is kept. */
  function Lower(s: string): (r: string)
    ensures |r| == |s|
    ensures forall i :: 0 <= i < |s| ==> r[i] == LowerChar(s[i])
  {
    seq(|s|, i requires 0 <= i < |s| => LowerChar(s[i]))
  }

  /** `s.upper()`, for the ASCII letters. */
  function Upper(s: string): (r: string)
    ensures |r| == |s|
    ensures forall i :: 0 <= i < |s| ==> r[i] == UpperChar(s[i])
  {
    seq(|s|, i requires 0 <= i < |s| => UpperChar(s[i]))
  }

  /** Lower-cased text has no ASCII capital left, so lower-casing it again changes nothing. */
  lemma LowerIdempotent(s: string)
    ensures forall i :: 0 <= i < |Lower(s)| ==> !IsUpper(Lower(s)[i])
    ensures Lower(Lower(s)) == Lower(s)
  {
  }

  /** Upper-casing first does not change the lower-case form. */
  lemma LowerOfUpper(s: string)
    ensures Lower(Upper(s)) == Lower(s)
  {
    forall i | 0 <= i < |s|
      ensures Lower(Upper(s))[i] == Lower(s)[i]
    {
      var c := s[i];
      if IsLower(c) {
        assert LowerChar(UpperChar(c)) == c == LowerChar(c);
      }
    }
  }

  /** Lower-casing works character by character, so it distributes over concatenation. */
  lemma LowerAppend(a: string, b: string)
    ensures Lower(a + b) == Lower(a) + Lower(b)
  {
    var l, r := Lower(a + b), Lower(a) + Lower(b);
    assert |l| == |r|;
    forall i | 0 <= i < |l|
      ensures l[i] == r[i]
    {
      if i < |a| {
        assert (a + b)[i] == a[i];
      } else {
        assert (a + b)[i] == b[i - |a|];
      }
    }
  }

  /** `w in h` for Python strings: `w` occurs somewhere inside `h`. */
  ghost predicate Occurs(w: string, h: string) {
    exists a: string, b: string :: h == a + w + b
  }

  /** Substring search: true exactly when `w` occurs in `h` (the empty string occurs everywhere). */
  function Contains(w: string, h: string): (r: bool)
    ensures r <==> Occurs(w, h)
    decreases |h|
  {
    if |w| > |h| then
      NoOccurrenceInShorter(w, h);
      false
    else if w == h[..|w|] then
      assert h == [] + w + h[|w|..];
      true
    else
      OccursTail(w, h);
      Contains(w, h[1..])
  }

  lemma NoOccurrenceInShorter(w: string, h: string)
    requires |w| > |h|
    ensures !Occurs(w, h)
  {
    if a: string, b: string :| h == a + w + b {
      assert false;
    }
  }

  /** When `w` is not a prefix of `h`, it occurs in `h` exactly when it occurs in `h[1..]`. */
  lemma OccursTail(w: string, h: string)
    requires |w| <= |h| && w != h[..|w|]
    ensures Occurs(w, h) <==> Occurs(w, h[1..])
  {
    if Occurs(w, h[1..]) {
      var a: string, b: string :| h[1..] == a + w + b;
      assert h == ([h[0]] + a) + w + b;
    }
    if Occurs(w, h) {
      var a: string, b: string :| h == a + w + b;
      if a == [] {
        assert false;
      }
      assert h[1..] == a[1..] + w + b;
    }
  }

  /** Python's `any(w in h for w in words)`: some keyword of the group occurs in `h`. */
  function ContainsAny(words: seq<string>, h: string): (r: bool)
    ensures r <==> exists i :: 0 <= i < |words| && Occurs(words[i], h)
  {
    if words == [] then false
    else if Contains(words[0], h) then true
    else
      assert forall i :: 1 <= i < |words| ==> words[i] == words[1..][i - 1];
      ContainsAny(words[1..], h)
  }

  /** Occurrence is transitive: what occurs in a part of a text occurs in the text. */
  lemma {:induction false} OccursTransitive(u: string, v: string, w: string)
    requires Occurs(u, v) && Occurs(v, w)
    ensures Occurs(u, w)
  {
    var a: string, b: string :| v == a + u + b;
    var c: string, d: string :| w == c + v + d;
    assert w == (c + a) + u + (b + d);
  }

  /** An occurrence survives lower-casing both sides. */
  lemma {:induction false} OccursLower(u: string, v: string)
    requires Occurs(u, v)
    ensures Occurs(Lower(u), Lower(v))
  {
    var a: string, b: string :| v == a + u + b;
    LowerAppend(a + u, b);
    LowerAppend(a, u);
    assert Lower(v) == Lower(a) + Lower(u) + Lower(b);
  }

  /** Every text occurs in any extension of it. */
  lemma {:induction false} OccursInAppend(t: string, u: string)
    ensures Occurs(t, t + u)
  {
    assert t + u == [] + t + u;
  }

  /** Two adjacent characters of `w`, found at their place inside `a + w + b`. */
  lemma AppendPair(a: string, w: string, b: string, j: nat)
    requires j + 1 < |w|
    ensures (a + w + b)[|a| + j] == w[j] && (a + w + b)[|a| + j + 1] == w[j + 1]
  {
  }

  /** No pair of characters in `absent` stands side by side anywhere in `h`. */
  ghost predicate PairsAbsent(h: string, absent: set<(char, char)>) {
    forall i :: 0 <= i < |h| - 1 ==> (h[i], h[i + 1]) !in absent
  }

  /** A pair is absent from a concatenation when it is absent from each part and across the seam. */
  lemma {:induction false} PairsAbsentAppend(a: string, b: string, absent: set<(char, char)>)
    requires PairsAbsent(a, absent) && PairsAbsent(b, absent)
    requires |a| > 0 && |b| > 0 && (a[|a| - 1], b[0]) !in absent
    ensures PairsAbsent(a + b, absent)
  {
    var h := a + b;
    forall i | 0 <= i < |h| - 1
      ensures (h[i], h[i + 1]) !in absent
    {
      if i + 1 < |a| {
        assert h[i] == a[i] && h[i + 1] == a[i + 1];
      } else if i + 1 == |a| {
        assert h[i] == a[|a| - 1] && h[i + 1] == b[0];
      } else {
        assert h[i] == b[i - |a|] && h[i + 1] == b[i - |a| + 1];
      }
    }
  }

  /** A word cannot occur in a text in which two of its adjacent characters never stand side by side. */
  lemma {:induction false} NotOccursByPair(w: string, h: string, absent: set<(char, char)>, j: nat)
    requires PairsAbsent(h, absent)
    requires j + 1 < |w| && (w[j], w[j + 1]) in absent
    ensures !Occurs(w, h)
  {
    if a: string, b: string :| h == a + w + b {
      AppendPair(a, w, b, j);
      assert false;
    }
  }

  /** A word occurs where a slice of the text spells it. */
  lemma {:induction false} OccursAtIndex(w: string, h: string, i: nat)
    requires i + |w| <= |h| && h[i..i + |w|] == w
    ensures Occurs(w, h)
  {
    assert h == h[..i] + w + h[i + |w|..];
  }
}
