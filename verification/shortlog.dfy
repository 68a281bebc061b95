/** `gather_emails`: every line of the authorship summary that matches
    `\s+\d+\s+([^<]*)\s+<([^>]+)+` becomes a (name, email) pair; other
    lines are skipped. The regular expression is written out by hand as
    `ParseLine`, and `Shape` and `Preferred` say what the pattern and
    Python's backtracking order mean, independently of how `ParseLine`
    scans. */
module Shortlog {
  import opened Basics

  /** One way the pattern can match at the start of `line`, given by where
      its parts end: `\s+` up to b1, `\d+` up to b2, `\s+` up to b3, group 1
      from b3 to b4, `\s+` up to lt, the `<` at lt, and the text that
      `([^>]+)+` covers from lt + 1 to e. re.match anchors only at the start,
      so anything may follow e. */
  ghost predicate Shape(line: string, b1: nat, b2: nat, b3: nat, b4: nat, lt: nat, e: nat) {
    0 < b1 < b2 < b3 && b4 < lt && lt + 1 < e
    && Run(line, 0, b1, IsSpace) && Run(line, b1, b2, IsDigit) && Run(line, b2, b3, IsSpace)
    && Run(line, b3, b4, NotOpen) && Run(line, b4, lt, IsSpace)
    && Run(line, lt + 1, e, NotClose) && line[lt] == '<'
  }

  /** The shape Python's backtracking reports first: the count's trailing
      whitespace as long as possible (so a non-empty group 1 does not start
      with whitespace; when group 1 is empty, the last character of that
      run goes to the final `\s+`), then group 1 as long as possible (so the
      last `\s+` is a single character), then one greedy pass of `[^>]+` (so the email runs
      up to the first `>` or to the end of the line). */
  ghost predicate Preferred(line: string, b1: nat, b2: nat, b3: nat, b4: nat, lt: nat, e: nat) {
    Shape(line, b1, b2, b3, b4, lt, e)
    && lt == b4 + 1 && (b3 < b4 ==> !IsSpace(line[b3])) && (e == |line| || line[e] == '>')
  }

  /** The match of one line, or None when the pattern does not match. */
  function ParseLine(line: string): (r: Option<Identity>)
    ensures r.Some? ==> '<' !in r.value.name
    ensures r.Some? ==> r.value.email != [] && '>' !in r.value.email
  {
    var i1 := Span(line, 0, IsSpace);
    var i2 := Span(line, i1, IsDigit);
    var i3 := Span(line, i2, IsSpace);
    // the first '<' after the count
    var lt := Span(line, i3, NotOpen);
    if 0 < i1 < i2 < i3 && lt < |line| && i2 + 2 <= lt && IsSpace(line[lt - 1]) then
      var e := Span(line, lt + 1, NotClose);
      if lt + 1 < e then
        // when the whitespace after the count reaches the '<', group 1 is empty
        var start := if i3 < lt then i3 else lt - 1;
        Some(Identity(line[start..lt - 1], line[lt + 1..e]))
      else
        None
    else
      None
  }

  /** Every pair ParseLine returns is the preferred match of its line. */
  lemma ParseLineSound(line: string)
    requires ParseLine(line).Some?
    ensures exists b1: nat, b2: nat, b3: nat, b4: nat, lt: nat, e: nat ::
              Preferred(line, b1, b2, b3, b4, lt, e)
              && ParseLine(line).value == Identity(line[b3..b4], line[lt + 1..e])
  {
    var i1 := Span(line, 0, IsSpace);
    var i2 := Span(line, i1, IsDigit);
    var i3 := Span(line, i2, IsSpace);
    var lt := Span(line, i3, NotOpen);
    var e := Span(line, lt + 1, NotClose);
    var start := if i3 < lt then i3 else lt - 1;
    assert Preferred(line, i1, i2, start, lt - 1, lt, e);
  }

  /** The preferred match of a line is exactly what ParseLine returns. */
  lemma ParseLineExact(line: string, b1: nat, b2: nat, b3: nat, b4: nat, lt: nat, e: nat)
    requires Preferred(line, b1, b2, b3, b4, lt, e)
    ensures ParseLine(line) == Some(Identity(line[b3..b4], line[lt + 1..e]))
  {
    PreferredSpans(line, b1, b2, b3, b4, lt, e);
    ParseLineFromSpans(line, b1, b2, if b3 == b4 then lt else b3, lt, e);
  }

  /** Where each scan of ParseLine stops on a line with a preferred match. */
  lemma PreferredSpans(line: string, b1: nat, b2: nat, b3: nat, b4: nat, lt: nat, e: nat)
    requires Preferred(line, b1, b2, b3, b4, lt, e)
    ensures var i3 := if b3 == b4 then lt else b3;
            && Span(line, 0, IsSpace) == b1 && Span(line, b1, IsDigit) == b2
            && Span(line, b2, IsSpace) == i3 && Span(line, i3, NotOpen) == lt
            && Span(line, lt + 1, NotClose) == e
  {
    var i3 := if b3 == b4 then lt else b3;
    SpanAt(line, 0, b1, IsSpace);
    SpanAt(line, b1, b2, IsDigit);
    if b3 == b4 {
      RunJoin(line, b2, b3, lt, IsSpace);
    } else {
      RunJoin(line, b3, b4, lt, NotOpen);
    }
    SpanAt(line, b2, i3, IsSpace);
    SpanAt(line, i3, lt, NotOpen);
    SpanAt(line, lt + 1, e, NotClose);
  }

  /** ParseLine once the scans are known: only the final checks and slices remain. */
  lemma ParseLineFromSpans(line: string, i1: nat, i2: nat, i3: nat, lt: nat, e: nat)
    requires i1 <= i2 <= i3 <= lt && lt + 1 < e <= |line|
    requires Span(line, 0, IsSpace) == i1 && Span(line, i1, IsDigit) == i2 && Span(line, i2, IsSpace) == i3
    requires Span(line, i3, NotOpen) == lt && Span(line, lt + 1, NotClose) == e
    requires 0 < i1 < i2 < i3 && i2 + 2 <= lt && IsSpace(line[lt - 1])
    ensures ParseLine(line) == Some(Identity(line[if i3 < lt then i3 else lt - 1..lt - 1], line[lt + 1..e]))
  {
  }

  /** Any line the pattern matches at all yields a pair: the parser rejects
      nothing that backtracking would accept. */
  lemma ParseLineComplete(line: string, b1: nat, b2: nat, b3: nat, b4: nat, lt: nat, e: nat)
    requires Shape(line, b1, b2, b3, b4, lt, e)
    ensures ParseLine(line).Some?
  {
    SpanAt(line, 0, b1, IsSpace);
    SpanAt(line, b1, b2, IsDigit);
    SpanPast(line, b2, b3, IsSpace);
    var i3 := Span(line, b2, IsSpace);
    assert i3 <= lt by {
      SpanAt(line, b2, i3, IsSpace);
    }
    SpanAt(line, i3, lt, NotOpen);
    SpanPast(line, lt + 1, e, NotClose);
  }

  /** A line yields a pair exactly when the pattern matches it. */
  lemma ParseLineMatches(line: string)
    ensures ParseLine(line).Some? <==>
              exists b1: nat, b2: nat, b3: nat, b4: nat, lt: nat, e: nat :: Shape(line, b1, b2, b3, b4, lt, e)
  {
    if ParseLine(line).Some? {
      ParseLineSound(line);
    }
    if exists b1: nat, b2: nat, b3: nat, b4: nat, lt: nat, e: nat :: Shape(line, b1, b2, b3, b4, lt, e) {
      var b1: nat, b2: nat, b3: nat, b4: nat, lt: nat, e: nat :| Shape(line, b1, b2, b3, b4, lt, e);
      ParseLineComplete(line, b1, b2, b3, b4, lt, e);
    }
  }

  /** The pairs `gather_emails` returns, in the order of the lines. */
  function ParseShortlog(lines: seq<string>): (ids: seq<Identity>)
    ensures |ids| <= |lines|
  {
    if lines == [] then []
    else ParseShortlog(lines[..|lines| - 1]) + Kept(ParseLine(lines[|lines| - 1]))
  }

  function Kept(r: Option<Identity>): seq<Identity> {
    if r.Some? then [r.value] else []
  }

  /** The positions of the lines the pattern matches, in increasing order. */
  function MatchedLines(lines: seq<string>): (idx: seq<nat>)
    ensures forall j :: 0 <= j < |idx| ==> idx[j] < |lines|
    ensures forall j, k :: 0 <= j < k < |idx| ==> idx[j] < idx[k]
    ensures forall i :: 0 <= i < |lines| ==> (i in idx <==> ParseLine(lines[i]).Some?)
  {
    Where(lines, Matches)
  }

  predicate Matches(line: string) {
    ParseLine(line).Some?
  }

  /** The j-th pair is the match of the j-th matching line: output order is
      line order, every pair comes from a matching line, and every matching
      line contributes exactly one pair. */
  lemma {:induction false} ParseShortlogSelects(lines: seq<string>)
    ensures |ParseShortlog(lines)| == |MatchedLines(lines)|
    ensures forall j :: 0 <= j < |MatchedLines(lines)| ==>
              ParseLine(lines[MatchedLines(lines)[j]]) == Some(ParseShortlog(lines)[j])
  {
    if lines != [] {
      var n := |lines| - 1;
      var init := lines[..n];
      ParseShortlogSelects(init);
      var idx, ids := MatchedLines(lines), ParseShortlog(lines);
      var idx0, ids0 := MatchedLines(init), ParseShortlog(init);
      forall j | 0 <= j < |idx|
        ensures ParseLine(lines[idx[j]]) == Some(ids[j])
      {
        if j < |idx0| {
          assert idx[j] == idx0[j] && ids[j] == ids0[j];
          assert lines[idx0[j]] == init[idx0[j]];
        }
      }
    }
  }

  /** Parsing distributes over concatenation of the input: a line that does
      not match neither raises nor changes what the following lines give. */
  lemma {:induction false} ParseShortlogAppend(a: seq<string>, b: seq<string>)
    ensures ParseShortlog(a + b) == ParseShortlog(a) + ParseShortlog(b)
  {
    if b == [] {
      assert a + b == a;
    } else {
      var n := |b| - 1;
      assert (a + b)[..|a + b| - 1] == a + b[..n];
      ParseShortlogAppend(a, b[..n]);
    }
  }

  /** One line gives its own pair, if any. */
  lemma ParseShortlogSingle(line: string)
    ensures ParseShortlog([line]) == Kept(ParseLine(line))
  {
    assert [line][..0] == [];
  }

  /** Two lines give the pair of the first line, if any, then that of the second. */
  lemma ParseShortlogPair(l1: string, l2: string)
    ensures ParseShortlog([l1, l2]) == Kept(ParseLine(l1)) + Kept(ParseLine(l2))
  {
    assert [l1, l2][..1] == [l1];
    assert [l1][..0] == [];
  }

  /** The loop of `gather_emails` over the lines of the summary. */
  method GatherEmails(lines: seq<string>) returns (emailsList: seq<Identity>)
    ensures emailsList == ParseShortlog(lines)
  {
    emailsList := [];
    for i := 0 to |lines|
      invariant emailsList == ParseShortlog(lines[..i])
    {
      assert lines[..i + 1][..i] == lines[..i];
      var matched := ParseLine(lines[i]);
      if matched.Some? {
        emailsList := emailsList + [matched.value];
      }
    }
    assert lines[..|lines|] == lines;
  }

  /** A summary line laid out as `git shortlog -sne` prints it (whitespace,
      the count, whitespace, the name, a space and the email in angle
      brackets) parses back to its name and email, provided the name has no
      `<` and does not start with whitespace, and the email is non-empty
      with no `>`. */
  lemma ParseLineRoundTrip(lead: string, count: string, sep: string, id: Identity)
    requires lead != [] && Run(lead, 0, |lead|, IsSpace)
    requires count != [] && Run(count, 0, |count|, IsDigit)
    requires sep != [] && Run(sep, 0, |sep|, IsSpace)
    requires '<' !in id.name && (id.name == [] || !IsSpace(id.name[0]))
    requires id.email != [] && '>' !in id.email
    ensures ParseLine(lead + count + sep + id.name + " <" + id.email + ">") == Some(id)
  {
    var line := lead + count + sep + id.name + " <" + id.email + ">";
    var b1 := |lead|;
    var b2 := b1 + |count|;
    var b3 := b2 + |sep|;
    var b4 := b3 + |id.name|;
    var e := b4 + 2 + |id.email|;
    SummaryLineLayout(line, lead, count, sep, id, b1, b2, b3, b4, e);
    ParseLineExact(line, b1, b2, b3, b4, b4 + 1, e);
  }

  /** Where the parts of a summary line sit. */
  lemma SummaryLineLayout(line: string, lead: string, count: string, sep: string, id: Identity,
                          b1: nat, b2: nat, b3: nat, b4: nat, e: nat)
    requires line == lead + count + sep + id.name + " <" + id.email + ">"
    requires b1 == |lead| && b2 == b1 + |count| && b3 == b2 + |sep| && b4 == b3 + |id.name|
    requires e == b4 + 2 + |id.email|
    requires lead != [] && Run(lead, 0, |lead|, IsSpace)
    requires count != [] && Run(count, 0, |count|, IsDigit)
    requires sep != [] && Run(sep, 0, |sep|, IsSpace)
    requires '<' !in id.name && (id.name == [] || !IsSpace(id.name[0]))
    requires id.email != [] && '>' !in id.email
    ensures Preferred(line, b1, b2, b3, b4, b4 + 1, e)
    ensures line[b3..b4] == id.name && line[b4 + 2..e] == id.email
  {
    assert Run(line, 0, b1, IsSpace) by {
      assert forall k :: 0 <= k < b1 ==> line[k] == lead[k];
    }
    assert Run(line, b1, b2, IsDigit) by {
      assert forall k :: b1 <= k < b2 ==> line[k] == count[k - b1];
    }
    assert Run(line, b2, b3, IsSpace) by {
      assert forall k :: b2 <= k < b3 ==> line[k] == sep[k - b2];
    }
    assert line[b3..b4] == id.name && Run(line, b3, b4, NotOpen) by {
      assert forall k :: b3 <= k < b4 ==> line[k] == id.name[k - b3];
    }
    assert line[b4 + 2..e] == id.email && Run(line, b4 + 2, e, NotClose) by {
      assert forall k :: b4 + 2 <= k < e ==> line[k] == id.email[k - b4 - 2];
    }
    assert line[b4] == ' ' && line[b4 + 1] == '<' && line[e] == '>';
  }

  /** A typical summary line: a tab separates the count from the name. */
  lemma TypicalLine(line: string)
    requires line == "     2\tA <a@x.com>"
    ensures ParseLine(line) == Some(Identity("A", "a@x.com"))
  {
    assert line == "     " + "2" + "\t" + "A" + " <" + "a@x.com" + ">";
    ParseLineRoundTrip("     ", "2", "\t", Identity("A", "a@x.com"));
  }

  /** Group 1 is not trimmed: only the one whitespace character before `<`
      is left out of the name, and no closing `>` is needed. */
  lemma NameKeepsInnerWhitespace(line: string)
    requires line == "  1  John  <j@x"
    ensures ParseLine(line) == Some(Identity("John ", "j@x"))
  {
    assert Preferred(line, 2, 3, 5, 10, 11, 15) by {
      assert Run(line, 0, 2, IsSpace) && Run(line, 2, 3, IsDigit) && Run(line, 3, 5, IsSpace);
      assert Run(line, 5, 10, NotOpen) && Run(line, 10, 11, IsSpace) && Run(line, 12, 15, NotClose);
    }
    assert line[5..10] == "John " && line[12..15] == "j@x";
    ParseLineExact(line, 2, 3, 5, 10, 11, 15);
  }
}
