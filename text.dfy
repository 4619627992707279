/**
 * The string operations the job board relies on: JavaScript's `trim`,
 * `split` on a one-character separator, `join`, and the case-insensitive
 * containment test that a `$regex` with option `i` performs on a literal
 * pattern.
 */
module Text {

  /** The characters JavaScript's `String.prototype.trim` removes. */
  predicate IsWhitespace(c: char) {
    || c == ' ' || c == '\t' || c == '\n' || c == '\r'
    || c == '\U{000B}' || c == '\U{000C}' || c == '\U{00A0}' || c == '\U{FEFF}'
    || c == '\U{1680}' || ('\U{2000}' <= c <= '\U{200A}')
    || c == '\U{2028}' || c == '\U{2029}' || c == '\U{202F}' || c == '\U{205F}' || c == '\U{3000}'
  }

  /** A string with no whitespace at either end: what `trim` leaves. */
  predicate Trimmed(s: string) {
    s == [] || (!IsWhitespace(s[0]) && !IsWhitespace(s[|s| - 1]))
  }

  /** How many leading characters `trim` removes: the length of the run of whitespace at the front. */
  function LeadingWhitespace(s: string): (n: nat)
    ensures n <= |s|
    ensures forall i :: 0 <= i < n ==> IsWhitespace(s[i])
    ensures n < |s| ==> !IsWhitespace(s[n])
  {
    if s != [] && IsWhitespace(s[0]) then 1 + LeadingWhitespace(s[1..]) else 0
  }

  /** How many trailing characters `trim` removes: the length of the run of whitespace at the end. */
  function TrailingWhitespace(s: string): (n: nat)
    ensures n <= |s|
    ensures forall i :: |s| - n <= i < |s| ==> IsWhitespace(s[i])
    ensures n < |s| ==> !IsWhitespace(s[|s| - 1 - n])
  {
    if s != [] && IsWhitespace(s[|s| - 1]) then 1 + TrailingWhitespace(s[..|s| - 1]) else 0
  }

  /**
   * JavaScript's `trim`: the infix of `s` left after removing whitespace at
   * both ends; it starts at `LeadingWhitespace(s)` and all it drops is whitespace.
   */
  function Trim(s: string): (r: string)
    ensures Trimmed(r)
    ensures LeadingWhitespace(s) + |r| <= |s|
    ensures r == s[LeadingWhitespace(s)..LeadingWhitespace(s) + |r|]
    ensures forall i :: 0 <= i < LeadingWhitespace(s) ==> IsWhitespace(s[i])
    ensures forall i :: LeadingWhitespace(s) + |r| <= i < |s| ==> IsWhitespace(s[i])
  {
    var k := LeadingWhitespace(s);
    var t := s[k..];
    var e := TrailingWhitespace(t);
    forall i | |s| - e <= i < |s| ensures IsWhitespace(s[i]) {
      assert s[i] == t[i - k];
    }
    assert e < |t| ==> s[|s| - 1 - e] == t[|t| - 1 - e];
    s[k..|s| - e]
  }

  /** `trim` gives the empty string exactly for strings made of whitespace. */
  lemma TrimEmpty(s: string)
    ensures Trim(s) == [] <==> forall i :: 0 <= i < |s| ==> IsWhitespace(s[i])
  {
    var k := LeadingWhitespace(s);
    if Trim(s) == [] {
    } else {
      assert !IsWhitespace(s[k]);
    }
  }

  /** Trimming a string that has no whitespace at either end changes nothing. */
  lemma TrimOfTrimmed(s: string)
    requires Trimmed(s)
    ensures Trim(s) == s
  {
    assert LeadingWhitespace(s) == 0;
    assert s[0..] == s;
  }

  /** Trimming is idempotent. */
  lemma TrimIdempotent(s: string)
    ensures Trim(Trim(s)) == Trim(s)
  {
    TrimOfTrimmed(Trim(s));
  }

  /** The run of whitespace at the front of `w + s` is `w` when `s` starts with something else. */
  lemma {:induction false} LeadingRun(w: string, s: string)
    requires forall i :: 0 <= i < |w| ==> IsWhitespace(w[i])
    requires s != [] && !IsWhitespace(s[0])
    ensures LeadingWhitespace(w + s) == |w|
  {
    if w == [] {
      assert w + s == s;
    } else {
      assert (w + s)[1..] == w[1..] + s;
      LeadingRun(w[1..], s);
    }
  }

  /** Whitespace in front of a string with no whitespace at either end is removed. */
  lemma TrimLeadingWhitespace(w: string, s: string)
    requires forall i :: 0 <= i < |w| ==> IsWhitespace(w[i])
    requires Trimmed(s) && s != []
    ensures Trim(w + s) == s
  {
    LeadingRun(w, s);
    assert (w + s)[|w|..] == s;
  }

  /** ASCII case folding, which is how `$options: 'i'` compares letters in the model. */
  function Lower(c: char): char {
    if 'A' <= c <= 'Z' then (c as int + 32) as char else c
  }

  /** `a` and `b` have the same length and agree letter by letter up to case. */
  predicate EqualIgnoringCase(a: string, b: string) {
    |a| == |b| && forall i :: 0 <= i < |a| ==> Lower(a[i]) == Lower(b[i])
  }

  /** `needle` occurs in `hay` at position `k`, up to case. */
  ghost predicate OccursAt(hay: string, needle: string, k: int) {
    0 <= k && k + |needle| <= |hay| && EqualIgnoringCase(hay[k..k + |needle|], needle)
  }

  /**
   * Case-insensitive containment: what `{ $regex: needle, $options: 'i' }`
   * decides for a pattern without metacharacters.
   */
  function ContainsIgnoringCase(hay: string, needle: string): (r: bool)
    ensures r <==> exists k :: OccursAt(hay, needle, k)
    decreases |hay|
  {
    if |needle| > |hay| then
      assert forall k :: !OccursAt(hay, needle, k);
      false
    else if EqualIgnoringCase(hay[..|needle|], needle) then
      assert OccursAt(hay, needle, 0);
      true
    else
      var r := ContainsIgnoringCase(hay[1..], needle);
      assert forall k :: OccursAt(hay[1..], needle, k) <==> OccursAt(hay, needle, k + 1) by {
        forall k ensures OccursAt(hay[1..], needle, k) <==> OccursAt(hay, needle, k + 1) {
          if 0 <= k && k + |needle| <= |hay| - 1 {
            assert hay[1..][k..k + |needle|] == hay[k + 1..k + 1 + |needle|];
          }
        }
      }
      assert !OccursAt(hay, needle, 0);
      assert r ==> OccursAt(hay, needle, (var k :| OccursAt(hay[1..], needle, k); k) + 1);
      assert (exists k :: OccursAt(hay, needle, k)) ==> r by {
        if k :| OccursAt(hay, needle, k) {
          assert k != 0;
          assert OccursAt(hay[1..], needle, k - 1);
        }
      }
      r
  }

  /** The empty pattern is found in every string. */
  lemma EmptyNeedleFound(hay: string)
    ensures ContainsIgnoringCase(hay, "")
  {
    assert OccursAt(hay, "", 0);
  }

  /** Number of occurrences of `c` in `s`. */
  function Count(s: string, c: char): (n: nat)
    ensures n <= |s|
  {
    if s == [] then 0 else (if s[0] == c then 1 else 0) + Count(s[1..], c)
  }

  /** `Array.prototype.join(sep)`. */
  function Join(parts: seq<string>, sep: string): string {
    if |parts| == 0 then ""
    else if |parts| == 1 then parts[0]
    else parts[0] + sep + Join(parts[1..], sep)
  }

  /**
   * `String.prototype.split(sep)` for a one-character separator: the pieces
   * between separators, one more piece than there are separators, and gluing
   * them back with the separator gives the input.
   */
  function Split(s: string, sep: char): (r: seq<string>)
    ensures |r| == Count(s, sep) + 1
    ensures forall i :: 0 <= i < |r| ==> sep !in r[i]
  {
    if s == [] then [[]]
    else
      var rest := Split(s[1..], sep);
      if s[0] == sep then [[]] + rest
      else [[s[0]] + rest[0]] + rest[1..]
  }

  /** Gluing the pieces back with the separator gives the input. */
  lemma {:induction false} JoinOfSplit(s: string, sep: char)
    ensures Join(Split(s, sep), [sep]) == s
  {
    if s != [] {
      JoinOfSplit(s[1..], sep);
      var rest := Split(s[1..], sep);
      if s[0] == sep {
        assert Join([[]] + rest, [sep]) == [] + [sep] + Join(rest, [sep]);
      } else {
        var r := [[s[0]] + rest[0]] + rest[1..];
        assert r[1..] == rest[1..];
        if |rest| > 1 {
          assert Join(rest, [sep]) == rest[0] + [sep] + Join(rest[1..], [sep]);
        }
      }
      assert [s[0]] + s[1..] == s;
    }
  }

  /** Splitting a string built by `Join` with the separator gives back the parts. */
  lemma {:induction false} SplitOfJoin(parts: seq<string>, sep: char)
    requires |parts| >= 1
    requires forall i :: 0 <= i < |parts| ==> sep !in parts[i]
    ensures Split(Join(parts, [sep]), sep) == parts
  {
    if |parts| == 1 {
      SplitWithoutSeparator(parts[0], sep);
    } else {
      SplitOfJoin(parts[1..], sep);
      SplitConcat(parts[0], Join(parts[1..], [sep]), sep);
      SplitWithoutSeparator(parts[0], sep);
      assert parts == [parts[0]] + parts[1..];
    }
  }

  /** A string without the separator splits into itself. */
  lemma {:induction false} SplitWithoutSeparator(s: string, sep: char)
    requires sep !in s
    ensures Split(s, sep) == [s]
  {
    if s != [] {
      SplitWithoutSeparator(s[1..], sep);
      assert [s[0]] + s[1..] == s;
    }
  }

  /** A string that starts with the separator splits into an empty piece and the split of the rest. */
  lemma SplitAtSeparator(x: string, sep: char)
    requires x != [] && x[0] == sep
    ensures Split(x, sep) == [[]] + Split(x[1..], sep)
  {
  }

  /** Any other first character joins the first piece of the split of the rest. */
  lemma SplitAtOther(x: string, sep: char)
    requires x != [] && x[0] != sep
    ensures var rest := Split(x[1..], sep);
            Split(x, sep) == [[x[0]] + rest[0]] + rest[1..]
  {
  }

  /** Extending the first piece commutes with appending more pieces. */
  lemma ExtendFirst(h: string, ra: seq<string>, rb: seq<string>)
    requires |ra| >= 1
    ensures [h + (ra + rb)[0]] + (ra + rb)[1..] == ([h + ra[0]] + ra[1..]) + rb
  {
    assert (ra + rb)[1..] == ra[1..] + rb;
  }

  /** Splitting `a + sep + b` splits `a` and `b` separately, in that order. */
  lemma {:induction false} SplitConcat(a: string, b: string, sep: char)
    ensures Split(a + [sep] + b, sep) == Split(a, sep) + Split(b, sep)
  {
    var x := a + [sep] + b;
    if a == [] {
      assert x == [sep] + b;
      SplitAtSeparator(x, sep);
      assert x[1..] == b;
    } else {
      assert x[1..] == a[1..] + [sep] + b;
      SplitConcat(a[1..], b, sep);
      var ra := Split(a[1..], sep);
      var rb := Split(b, sep);
      if a[0] == sep {
        SplitAtSeparator(x, sep);
        SplitAtSeparator(a, sep);
      } else {
        SplitAtOther(x, sep);
        SplitAtOther(a, sep);
        ExtendFirst([a[0]], ra, rb);
      }
    }
  }
}
