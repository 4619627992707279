/**
 * The two list fields the front end sends as text areas
 * (mern-job-finder/frontend/src/pages/CreateJob.js and
 * frontend/src/pages/Profile.js): requirements, one per line, and skills,
 * separated by commas.
 */
module FormLists {
  import opened Text
  import opened Seqs

  /** A line with something other than whitespace on it. */
  predicate NotBlank(line: string) {
    Trim(line) != []
  }

  predicate NonEmpty(s: string) {
    s != []
  }

  /**
   * `text.split('\n').filter(req => req.trim() !== '')`: the lines that are
   * not blank, in order and as typed (a kept line is not trimmed).
   */
  function RequirementsOf(text: string): (r: seq<string>)
    ensures |r| <= Count(text, '\n') + 1
    ensures forall i :: 0 <= i < |r| ==> NotBlank(r[i]) && '\n' !in r[i]
    ensures forall line :: line in r <==> line in Split(text, '\n') && NotBlank(line)
  {
    Filter(Split(text, '\n'), NotBlank)
  }

  /** A blank line contributes nothing; any other line is kept whole, surrounding blanks included. */
  lemma RequirementLine(line: string)
    requires '\n' !in line
    ensures RequirementsOf(line) == if NotBlank(line) then [line] else []
  {
    SplitWithoutSeparator(line, '\n');
    assert [line][1..] == [];
    assert Filter([line], NotBlank) == (if NotBlank(line) then [line] else []) + Filter([line][1..], NotBlank);
  }

  /** The requirements of two blocks of lines are those of the first followed by those of the second. */
  lemma RequirementsConcat(a: string, b: string)
    ensures RequirementsOf(a + "\n" + b) == RequirementsOf(a) + RequirementsOf(b)
  {
    SplitConcat(a, b, '\n');
    FilterConcat(Split(a, '\n'), Split(b, '\n'), NotBlank);
  }

  /** A character absent from a string is absent from its trimmed form. */
  lemma TrimKeepsOut(s: string, c: char)
    requires c !in s
    ensures c !in Trim(s)
  {
  }

  /**
   * `text.split(',').map(skill => skill.trim()).filter(skill => skill !== '')`:
   * the comma-separated entries, trimmed, without the empty ones, in order.
   */
  function SkillsOf(text: string): (r: seq<string>)
    ensures |r| <= Count(text, ',') + 1
  {
    Filter(Map(Split(text, ','), Trim), NonEmpty)
  }

  /** What `SkillsOf` reads back without loss: non-empty, trimmed entries without commas. */
  predicate PlainSkills(xs: seq<string>) {
    forall i :: 0 <= i < |xs| ==> xs[i] != [] && Trimmed(xs[i]) && ',' !in xs[i]
  }

  /** No parsed skill is empty, has whitespace at either end, or holds a comma. */
  lemma SkillsArePlain(text: string)
    ensures PlainSkills(SkillsOf(text))
  {
    var pieces := Split(text, ',');
    var trimmed := Map(pieces, Trim);
    var r := Filter(trimmed, NonEmpty);
    forall i | 0 <= i < |r| ensures r[i] != [] && Trimmed(r[i]) && ',' !in r[i] {
      assert r[i] in r;
      var k :| 0 <= k < |trimmed| && trimmed[k] == r[i];
      TrimKeepsOut(pieces[k], ',');
    }
  }

  /** The skills of two comma-separated texts are those of the first followed by those of the second. */
  lemma SkillsConcat(a: string, b: string)
    ensures SkillsOf(a + [','] + b) == SkillsOf(a) + SkillsOf(b)
  {
    SplitConcat(a, b, ',');
    MapConcat(Split(a, ','), Split(b, ','), Trim);
    FilterConcat(Map(Split(a, ','), Trim), Map(Split(b, ','), Trim), NonEmpty);
  }

  /** Text without a comma is one entry: its trimmed form, or nothing when that is empty. */
  lemma SkillsOfSingle(s: string)
    requires ',' !in s
    ensures SkillsOf(s) == if Trim(s) == [] then [] else [Trim(s)]
  {
    SplitWithoutSeparator(s, ',');
    assert Map([s], Trim) == [Trim(s)];
    assert [Trim(s)][1..] == [];
    assert Filter([Trim(s)], NonEmpty) == (if NonEmpty(Trim(s)) then [Trim(s)] else []) + Filter([Trim(s)][1..], NonEmpty);
  }

  function LeadBlank(x: string): string {
    " " + x
  }

  /** Text in front of a joined list attaches to its first entry. */
  lemma JoinPrefixFirst(p: string, x: string, rest: seq<string>, sep: string)
    ensures p + Join([x] + rest, sep) == Join([p + x] + rest, sep)
  {
    if rest != [] {
      assert ([x] + rest)[1..] == rest;
      assert ([p + x] + rest)[1..] == rest;
    }
  }

  /**
   * Joining with ", " is joining with "," once every entry after the first
   * carries a leading blank.
   */
  lemma {:induction false} JoinSpaced(xs: seq<string>)
    requires xs != []
    ensures Join(xs, ", ") == Join([xs[0]] + Map(xs[1..], LeadBlank), ",")
  {
    var ys := [xs[0]] + Map(xs[1..], LeadBlank);
    if |xs| >= 2 {
      var rest := xs[1..];
      JoinSpaced(rest);
      var m := Map(rest[1..], LeadBlank);
      assert Map(rest, LeadBlank) == [LeadBlank(rest[0])] + m;
      JoinPrefixFirst(" ", rest[0], m, ",");
      var t := Join(rest, ", ");
      assert Join(xs, ", ") == xs[0] + ", " + t;
      assert ys[1..] == Map(rest, LeadBlank);
      assert Join(ys, ",") == xs[0] + "," + (" " + t);
      assert xs[0] + ", " + t == xs[0] + "," + (" " + t);
    }
  }

  /** The pieces `split(',')` finds in a joined list of plain skills. */
  lemma SplitJoinedSkills(xs: seq<string>)
    requires PlainSkills(xs) && xs != []
    ensures Split(Join(xs, ", "), ',') == [xs[0]] + Map(xs[1..], LeadBlank)
  {
    var ys := [xs[0]] + Map(xs[1..], LeadBlank);
    JoinSpaced(xs);
    forall i | 0 <= i < |ys| ensures ',' !in ys[i] {
      if i > 0 {
        assert ys[i] == " " + xs[i];
      }
    }
    SplitOfJoin(ys, ',');
  }

  /** Trimming the pieces of a joined list of plain skills gives the skills back. */
  lemma TrimSpacedSkills(xs: seq<string>)
    requires PlainSkills(xs) && xs != []
    ensures Map([xs[0]] + Map(xs[1..], LeadBlank), Trim) == xs
  {
    var ys := [xs[0]] + Map(xs[1..], LeadBlank);
    forall i | 0 <= i < |xs| ensures Trim(ys[i]) == xs[i] {
      if i == 0 {
        TrimOfTrimmed(xs[0]);
      } else {
        assert ys[i] == LeadBlank(xs[i]);
        TrimLeadBlank(xs[i]);
      }
    }
  }

  /** The blank in front of a trimmed entry is trimmed away. */
  lemma TrimLeadBlank(x: string)
    requires x != [] && Trimmed(x)
    ensures Trim(LeadBlank(x)) == x
  {
    TrimLeadingWhitespace(" ", x);
  }

  /**
   * Showing skills as `join(', ')` and reading them back with `SkillsOf`
   * gives the original list, for entries that are non-empty, trimmed and
   * free of commas.
   */
  lemma SkillsOfJoin(xs: seq<string>)
    requires PlainSkills(xs)
    ensures SkillsOf(Join(xs, ", ")) == xs
  {
    if xs == [] {
      assert Split("", ',') == [""];
      assert Map([""], Trim) == [""];
      assert Filter([""], NonEmpty) == [];
    } else {
      SplitJoinedSkills(xs);
      TrimSpacedSkills(xs);
      FilterAll(xs, NonEmpty);
    }
  }

  /** Reading back what was read is a fixed point: `SkillsOf` gives plain skills. */
  lemma SkillsStable(text: string)
    ensures SkillsOf(Join(SkillsOf(text), ", ")) == SkillsOf(text)
  {
    SkillsArePlain(text);
    SkillsOfJoin(SkillsOf(text));
  }
}
