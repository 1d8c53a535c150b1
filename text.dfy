/** The Ruby and Rails string rules the model relies on: `blank?`/`present?`, `strip`,
    `split(',')`, `split(' ').last` and `sort` on arrays of strings. */
module Text {
  import opened Wrappers

  /** Ruby's ASCII whitespace: space, tab, line feed, vertical tab, form feed, carriage return. */
  predicate IsSpace(c: char) {
    c == ' ' || c == '\t' || c == '\n' || c == '\U{0B}' || c == '\U{0C}' || c == '\r'
  }

  predicate AllSpace(s: string) {
    forall i :: 0 <= i < |s| ==> IsSpace(s[i])
  }

  /** Rails' `blank?` on a nullable string: nil, empty, or whitespace only. */
  predicate IsBlank(s: Option<string>) {
    s.None? || AllSpace(s.value)
  }

  /** Rails' `present?`. */
  predicate IsPresent(s: Option<string>) {
    !IsBlank(s)
  }

  /** What string interpolation `"#{s}"` produces for a nullable string. */
  function OrEmpty(s: Option<string>): string {
    if s.Some? then s.value else ""
  }

  // ---------------------------------------------------------------- strip

  /** Number of whitespace characters at the front of `s`. */
  function LeadingSpaces(s: string): (k: nat)
    ensures k <= |s|
    ensures forall i :: 0 <= i < k ==> IsSpace(s[i])
    ensures k < |s| ==> !IsSpace(s[k])
  {
    if s == [] || !IsSpace(s[0]) then 0 else 1 + LeadingSpaces(s[1..])
  }

  /** Number of whitespace characters at the end of `s`. */
  function TrailingSpaces(s: string): (k: nat)
    ensures k <= |s|
    ensures forall i :: |s| - k <= i < |s| ==> IsSpace(s[i])
    ensures k < |s| ==> !IsSpace(s[|s| - 1 - k])
  {
    if s == [] || !IsSpace(s[|s| - 1]) then 0 else 1 + TrailingSpaces(s[..|s| - 1])
  }

  /** Ruby's `String#lstrip`: `s` without its leading whitespace. */
  function TrimStart(s: string): (r: string)
    ensures |r| <= |s| && r == s[|s| - |r|..]
    ensures forall i :: 0 <= i < |s| - |r| ==> IsSpace(s[i])
    ensures r == [] <==> AllSpace(s)
    ensures r != [] ==> !IsSpace(r[0])
  {
    var k := LeadingSpaces(s);
    s[k..]
  }

  /** Ruby's `String#rstrip`: `s` without its trailing whitespace. */
  function TrimEnd(s: string): (r: string)
    ensures |r| <= |s| && r == s[..|r|]
    ensures forall i :: |r| <= i < |s| ==> IsSpace(s[i])
    ensures r == [] <==> AllSpace(s)
    ensures r != [] ==> !IsSpace(r[|r| - 1])
  {
    var k := TrailingSpaces(s);
    s[..|s| - k]
  }

  /** `p`, `w` and `q` laid end to end; naming the split keeps the verifier to the
      splits a proof writes out. */
  function Concat3(p: string, w: string, q: string): string {
    p + w + q
  }

  /** `r` sits inside `s` with only whitespace on either side. */
  ghost predicate Padded(s: string, r: string) {
    exists p, q :: s == Concat3(p, r, q) && AllSpace(p) && AllSpace(q)
  }

  /** Concrete whitespace `p` and `q` around `r` make up `s`. */
  lemma PaddedWitness(s: string, r: string, p: string, q: string)
    requires s == Concat3(p, r, q) && AllSpace(p) && AllSpace(q)
    ensures Padded(s, r)
  {
  }

  /** Ruby's `String#strip`: `s` without its leading and trailing whitespace.
      The result is the unique slice of `s` that is empty or starts and ends with a
      non-space character and that leaves only whitespace on either side. */
  function Strip(s: string): (r: string)
    ensures |r| <= |s|
    ensures r == [] <==> AllSpace(s)
    ensures r != [] ==> !IsSpace(r[0]) && !IsSpace(r[|r| - 1])
    ensures Padded(s, r)
  {
    var t := TrimStart(s);
    var r := TrimEnd(t);
    assert r != [] ==> r[0] == t[0];
    StripParts(s, t, r);
    r
  }

  /** Leading whitespace before `t` and trailing whitespace after `r` pad `r` in `s`. */
  lemma StripParts(s: string, t: string, r: string)
    requires |t| <= |s| && t == s[|s| - |t|..] && forall i :: 0 <= i < |s| - |t| ==> IsSpace(s[i])
    requires |r| <= |t| && r == t[..|r|] && forall i :: |r| <= i < |t| ==> IsSpace(t[i])
    ensures Padded(s, r)
  {
    var p, q := s[..|s| - |t|], t[|r|..];
    assert AllSpace(p) && AllSpace(q);
    assert s == p + t && t == r + q;
    assert s == Concat3(p, r, q);
    PaddedWitness(s, r, p, q);
  }

  /** Stripping twice is stripping once. */
  lemma StripIdempotent(s: string)
    ensures Strip(Strip(s)) == Strip(s)
  {
    var r := Strip(s);
    assert TrimStart(r) == r;
    assert TrimEnd(r) == r;
  }

  // ---------------------------------------------------------------- split(sep)

  /** Every field of `s` between occurrences of `sep`, trailing empty fields included. */
  function Fields(s: string, sep: char): (r: seq<string>)
    ensures |r| >= 1
    ensures forall i :: 0 <= i < |r| ==> sep !in r[i]
  {
    if s == [] then [""]
    else if s[0] == sep then [""] + Fields(s[1..], sep)
    else
      var f := Fields(s[1..], sep);
      [[s[0]] + f[0]] + f[1..]
  }

  /** `pieces.join(sep)`. */
  function Join(pieces: seq<string>, sep: char): string {
    if |pieces| == 0 then ""
    else if |pieces| == 1 then pieces[0]
    else pieces[0] + [sep] + Join(pieces[1..], sep)
  }

  /** Joining the fields of `s` with the separator gives back `s`. */
  lemma {:induction false} JoinFields(s: string, sep: char)
    ensures Join(Fields(s, sep), sep) == s
  {
    if s != [] {
      JoinFields(s[1..], sep);
      var f := Fields(s[1..], sep);
      if s[0] == sep {
        assert Fields(s, sep) == [""] + f;
        assert ([""] + f)[1..] == f;
      } else {
        var g := [[s[0]] + f[0]] + f[1..];
        assert Fields(s, sep) == g;
        if |f| == 1 {
          assert Join(g, sep) == [s[0]] + f[0];
          assert s == [s[0]] + s[1..];
        } else {
          assert g[1..] == f[1..];
          assert Join(f, sep) == f[0] + [sep] + Join(f[1..], sep);
          assert Join(g, sep) == [s[0]] + f[0] + [sep] + Join(f[1..], sep);
          assert s == [s[0]] + s[1..];
        }
      }
    }
  }

  /** `fields` without its trailing empty strings. */
  function DropTrailingEmpty(fields: seq<string>): (r: seq<string>)
    ensures |r| <= |fields| && r == fields[..|r|]
    ensures forall i :: |r| <= i < |fields| ==> fields[i] == ""
    ensures r != [] ==> r[|r| - 1] != ""
  {
    if fields == [] || fields[|fields| - 1] != "" then fields
    else DropTrailingEmpty(fields[..|fields| - 1])
  }

  /** Ruby's `String#split` with a one-character separator: the fields between separators,
      with trailing empty fields removed (so `"".split(',')` is `[]`). */
  function Split(s: string, sep: char): (r: seq<string>)
    ensures forall i :: 0 <= i < |r| ==> sep !in r[i]
    ensures r != [] ==> r[|r| - 1] != ""
    ensures |r| <= |Fields(s, sep)| && r == Fields(s, sep)[..|r|]
    ensures forall i :: |r| <= i < |Fields(s, sep)| ==> Fields(s, sep)[i] == ""
  {
    DropTrailingEmpty(Fields(s, sep))
  }

  /** A string without the separator is a single field. */
  lemma {:induction false} FieldsOfPlain(a: string, sep: char)
    requires sep !in a
    ensures Fields(a, sep) == [a]
  {
    if a != [] {
      FieldsOfPlain(a[1..], sep);
      assert a == [a[0]] + a[1..];
    }
  }

  lemma {:induction false} FieldsAppend(a: string, b: string, sep: char)
    requires sep !in a
    ensures Fields(a + [sep] + b, sep) == [a] + Fields(b, sep)
  {
    var s := a + [sep] + b;
    if a == [] {
      assert s == [sep] + b;
      assert s[1..] == b;
    } else {
      assert s[0] == a[0] && s[1..] == a[1..] + [sep] + b;
      FieldsAppend(a[1..], b, sep);
      assert a == [a[0]] + a[1..];
    }
  }

  /** Splitting a join into fields gives back the pieces when none holds the separator. */
  lemma {:induction false} FieldsJoin(ps: seq<string>, sep: char)
    requires |ps| >= 1
    requires forall i :: 0 <= i < |ps| ==> sep !in ps[i]
    ensures Fields(Join(ps, sep), sep) == ps
  {
    if |ps| == 1 {
      FieldsOfPlain(ps[0], sep);
    } else {
      FieldsJoin(ps[1..], sep);
      FieldsAppend(ps[0], Join(ps[1..], sep), sep);
      assert ps == [ps[0]] + ps[1..];
    }
  }

  /** `ps.join(sep).split(sep) == ps` when no piece holds the separator and the last
      piece is not empty. */
  lemma SplitJoin(ps: seq<string>, sep: char)
    requires forall i :: 0 <= i < |ps| ==> sep !in ps[i]
    requires ps != [] ==> ps[|ps| - 1] != ""
    ensures Split(Join(ps, sep), sep) == ps
  {
    if ps != [] {
      FieldsJoin(ps, sep);
    }
  }

  // ---------------------------------------------------------------- sort

  /** Ruby's `String#<=>` order, read as "at most": lexicographic on character codes. */
  predicate AtMost(a: string, b: string) {
    a == [] || (b != [] && (a[0] < b[0] || (a[0] == b[0] && AtMost(a[1..], b[1..]))))
  }

  lemma {:induction false} AtMostTotal(a: string, b: string)
    ensures AtMost(a, b) || AtMost(b, a)
  {
    if a != [] && b != [] && a[0] == b[0] {
      AtMostTotal(a[1..], b[1..]);
    }
  }

  lemma {:induction false} AtMostTransitive(a: string, b: string, c: string)
    requires AtMost(a, b) && AtMost(b, c)
    ensures AtMost(a, c)
  {
    if a != [] && a[0] == b[0] && b[0] == c[0] {
      AtMostTransitive(a[1..], b[1..], c[1..]);
    }
  }

  lemma {:induction false} AtMostReflexive(a: string)
    ensures AtMost(a, a)
  {
    if a != [] { AtMostReflexive(a[1..]); }
  }

  lemma {:induction false} AtMostAntisymmetric(a: string, b: string)
    requires AtMost(a, b) && AtMost(b, a)
    ensures a == b
  {
    if a != [] {
      AtMostAntisymmetric(a[1..], b[1..]);
      assert a == [a[0]] + a[1..] && b == [b[0]] + b[1..];
    }
  }

  predicate Sorted(s: seq<string>) {
    forall i, j :: 0 <= i < j < |s| ==> AtMost(s[i], s[j])
  }

  /** A string at most every element of a sorted sequence can head it. */
  lemma SortedCons(x: string, s: seq<string>)
    requires Sorted(s) && forall y :: y in s ==> AtMost(x, y)
    ensures Sorted([x] + s)
  {
    var r := [x] + s;
    forall i, j | 0 <= i < j < |r| ensures AtMost(r[i], r[j]) {
      if i > 0 {
        assert r[i] == s[i - 1] && r[j] == s[j - 1];
      } else {
        assert r[j] in s;
      }
    }
  }

  /** `x` placed into the sorted sequence `s`. */
  function Insert(x: string, s: seq<string>): (r: seq<string>)
    requires Sorted(s)
    ensures Sorted(r)
    ensures multiset(r) == multiset(s) + multiset{x}
  {
    if s == [] then [x]
    else if AtMost(x, s[0]) then
      assert forall y :: y in s ==> AtMost(x, y) by {
        forall y | y in s ensures AtMost(x, y) {
          HeadAtMost(s, y);
          AtMostTransitive(x, s[0], y);
        }
      }
      SortedCons(x, s);
      [x] + s
    else
      AtMostTotal(x, s[0]);
      var t := Insert(x, s[1..]);
      assert s == [s[0]] + s[1..];
      assert forall y :: y in t ==> AtMost(s[0], y) by {
        forall y | y in t ensures AtMost(s[0], y) {
          assert y in multiset(t);
          if y != x { HeadAtMost(s, y); }
        }
      }
      SortedCons(s[0], t);
      [s[0]] + t
  }

  /** Ruby's `Array#sort` on strings: a sorted permutation of `s`. */
  function Sort(s: seq<string>): (r: seq<string>)
    ensures Sorted(r)
    ensures multiset(r) == multiset(s)
  {
    if s == [] then []
    else
      assert s == [s[0]] + s[1..];
      Insert(s[0], Sort(s[1..]))
  }

  /** The head of a sorted sequence is at most each of its elements. */
  lemma HeadAtMost(s: seq<string>, x: string)
    requires Sorted(s) && x in s
    ensures AtMost(s[0], x)
  {
    AtMostReflexive(s[0]);
  }

  /** There is only one sorted arrangement of a multiset of strings: two sorted sequences
      holding the same strings are equal. */
  lemma {:induction false} SortedPermutationUnique(a: seq<string>, b: seq<string>)
    requires Sorted(a) && Sorted(b) && multiset(a) == multiset(b)
    ensures a == b
  {
    if a != [] {
      assert b != [] by { assert |multiset(b)| == |multiset(a)| == |a|; }
      assert a[0] in multiset(b) && b[0] in multiset(a);
      HeadAtMost(a, b[0]);
      HeadAtMost(b, a[0]);
      AtMostAntisymmetric(a[0], b[0]);
      MultisetTail(a);
      MultisetTail(b);
      SortedPermutationUnique(a[1..], b[1..]);
    }
  }

  lemma MultisetTail(s: seq<string>)
    requires s != []
    ensures multiset(s[1..]) == multiset(s) - multiset{s[0]}
    ensures s == [s[0]] + s[1..]
  {
    assert s == [s[0]] + s[1..];
  }

  // ---------------------------------------------------------------- split(' ').last

  /** Length of the run of non-space characters at the end of `s`. */
  function TrailingWordLength(s: string): (k: nat)
    ensures k <= |s|
    ensures forall i :: |s| - k <= i < |s| ==> !IsSpace(s[i])
    ensures k < |s| ==> IsSpace(s[|s| - 1 - k])
  {
    if s == [] || IsSpace(s[|s| - 1]) then 0 else 1 + TrailingWordLength(s[..|s| - 1])
  }

  /** Ruby's `s.split(' ').last` for a present `s`: the last whitespace-delimited word,
      empty exactly when `s` is all whitespace. */
  function LastWord(s: string): (w: string)
    ensures w == [] <==> AllSpace(s)
    ensures forall i :: 0 <= i < |w| ==> !IsSpace(w[i])
  {
    if s == [] then []
    else if IsSpace(s[|s| - 1]) then
      var init := s[..|s| - 1];
      assert AllSpace(s) <==> AllSpace(init) by {
        assert forall i :: 0 <= i < |init| ==> init[i] == s[i];
      }
      LastWord(init)
    else TrailingWord(s)
  }

  /** The run of non-space characters at the end of `s`, preceded by whitespace or by
      nothing. */
  function TrailingWord(s: string): (w: string)
    ensures |w| <= |s| && w == s[|s| - |w|..]
    ensures forall i :: 0 <= i < |w| ==> !IsSpace(w[i])
    ensures |w| < |s| ==> IsSpace(s[|s| - 1 - |w|])
    ensures s != [] && !IsSpace(s[|s| - 1]) ==> w != []
  {
    var k := TrailingWordLength(s);
    var w := s[|s| - k..];
    assert forall i :: 0 <= i < k ==> w[i] == s[|s| - k + i];
    w
  }

  /** `w` sits at the end of `s`, followed only by whitespace and preceded by whitespace
      or nothing. */
  ghost predicate EndsWithWord(s: string, w: string) {
    exists p, q :: s == Concat3(p, w, q) && AllSpace(q) && (p == [] || IsSpace(p[|p| - 1]))
  }

  /** Concrete witnesses `p` and `q` place `w` at the end of `s`. */
  lemma WordWitness(s: string, w: string, p: string, q: string)
    requires s == Concat3(p, w, q) && AllSpace(q) && (p == [] || IsSpace(p[|p| - 1]))
    ensures EndsWithWord(s, w)
  {
  }

  /** Cutting `s` at `j` and laying the parts end to end gives back `s`. */
  lemma SplitAt(s: string, j: nat)
    requires j <= |s|
    ensures Concat3(s[..j], s[j..], []) == s
  {
    assert s[..j] + s[j..] + [] == s;
  }

  /** When `s` ends in a non-space character, its last word is its final run of
      non-space characters. */
  lemma EndsInWord(s: string)
    requires s != [] && !IsSpace(s[|s| - 1])
    ensures EndsWithWord(s, LastWord(s))
  {
    LastWordIsTrailingWord(s);
    TrailingWordAtEnd(s);
  }

  lemma LastWordIsTrailingWord(s: string)
    requires s != [] && !IsSpace(s[|s| - 1])
    ensures LastWord(s) == TrailingWord(s)
  {
  }

  /** The final run of non-space characters ends `s` as a word. */
  lemma TrailingWordAtEnd(s: string)
    ensures EndsWithWord(s, TrailingWord(s))
  {
    var w := TrailingWord(s);
    var p := s[..|s| - |w|];
    assert p == [] || p[|p| - 1] == s[|s| - 1 - |w|];
    SplitAt(s, |s| - |w|);
    WordWitness(s, w, p, []);
  }

  /** Trailing whitespace does not change where the last word sits. */
  lemma EndsInSpace(s: string, c: char, w: string)
    requires IsSpace(c) && EndsWithWord(s, w)
    ensures EndsWithWord(s + [c], w)
  {
    var p, q :| s == Concat3(p, w, q) && AllSpace(q) && (p == [] || IsSpace(p[|p| - 1]));
    var q' := q + [c];
    assert forall i :: 0 <= i < |q| ==> q'[i] == q[i];
    assert s + [c] == Concat3(p, w, q');
    WordWitness(s + [c], w, p, q');
  }

  /** The last word sits at the end of `s`, followed only by whitespace and preceded by
      whitespace or nothing. */
  lemma {:induction false} LastWordInContext(s: string)
    ensures EndsWithWord(s, LastWord(s))
  {
    if s == [] {
      WordWitness(s, LastWord(s), [], []);
    } else if IsSpace(s[|s| - 1]) {
      var init, c := s[..|s| - 1], s[|s| - 1];
      assert s == init + [c];
      LastWordInContext(init);
      EndsInSpace(init, c, LastWord(init));
    } else {
      EndsInWord(s);
    }
  }
}
