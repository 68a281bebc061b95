/** `git_config_items`: each `key value` line of `git config --get-regexp`
    is split at the first whitespace run; the stripped value is kept when
    the key equals the requested key exactly. A line with fewer than two
    fields makes the unpacking raise, which ends the script. */
module Config {
  import opened Basics

  /** The line holds two whitespace-separated fields. */
  ghost predicate HasTwoFields(line: string) {
    exists i, j, k :: 0 <= i < j < k < |line| && !IsSpace(line[i]) && IsSpace(line[j]) && !IsSpace(line[k])
  }

  /** `split(maxsplit=1)` read as its parts: leading whitespace up to a, the
      first field from a to b, the separating whitespace from b to c, and the
      remainder from c on, which starts with a non-space character. */
  ghost predicate Fields(line: string, a: nat, b: nat, c: nat) {
    Run(line, 0, a, IsSpace) && a < b && Run(line, a, b, IsNonSpace)
    && b < c && Run(line, b, c, IsSpace) && c < |line| && !IsSpace(line[c])
  }

  /** `line.split(maxsplit=1)` when it gives two fields: the key and the rest
      of the line after the whitespace that follows the key (the rest keeps
      its trailing whitespace). None when it gives fewer. */
  function SplitOnce(line: string): (r: Option<(string, string)>)
    ensures r.Some? ==> r.value.0 != [] && r.value.1 != [] && !IsSpace(r.value.1[0])
  {
    var a := Span(line, 0, IsSpace);
    var b := Span(line, a, IsNonSpace);
    var c := Span(line, b, IsSpace);
    if c < |line| then
      Some((line[a..b], line[c..]))
    else
      None
  }

  /** `split(maxsplit=1)` yields two fields exactly when the line has two. */
  lemma SplitOnceDefined(line: string)
    ensures SplitOnce(line).Some? <==> HasTwoFields(line)
  {
    var a := Span(line, 0, IsSpace);
    var b := Span(line, a, IsNonSpace);
    var c := Span(line, b, IsSpace);
    if c < |line| {
      assert a < b < c && !IsSpace(line[a]) && IsSpace(line[b]) && !IsSpace(line[c]);
    } else {
      forall i, j, k | 0 <= i < j < k < |line| && !IsSpace(line[i]) && IsSpace(line[j])
        ensures IsSpace(line[k])
      {
        assert a <= i;
        assert b <= j;
      }
    }
  }

  /** SplitOnce returns exactly the parts of the line's field structure. */
  lemma SplitOnceExact(line: string, a: nat, b: nat, c: nat)
    requires Fields(line, a, b, c)
    ensures SplitOnce(line) == Some((line[a..b], line[c..]))
  {
    SpanAt(line, 0, a, IsSpace);
    SpanAt(line, a, b, IsNonSpace);
    SpanAt(line, b, c, IsSpace);
  }

  /** What one line contributes: its stripped value when its key is `conf`. */
  function LineItems(line: string, conf: string): (r: Result<seq<string>>)
    ensures r.Err? ==> r.failure == TooFewFields(line)
    ensures r.Ok? ==> |r.value| <= 1 && forall v :: v in r.value ==> v != [] && !IsSpace(v[0])
  {
    match SplitOnce(line)
    case None => Err(TooFewFields(line))
    case Some((confLine, item)) => Ok(if Strip(confLine) == conf then [Strip(item)] else [])
  }

  /** A line with two fields contributes its stripped value exactly when its
      key is `conf`: stripping the key changes nothing, so `user.emailx`
      never passes for `user.email`. */
  lemma LineItemsKeyExact(line: string, conf: string, a: nat, b: nat, c: nat)
    requires Fields(line, a, b, c)
    ensures line[a..b] == conf ==> LineItems(line, conf) == Ok([Strip(line[c..])])
    ensures line[a..b] != conf ==> LineItems(line, conf) == Ok([])
  {
    SplitOnceExact(line, a, b, c);
    var key := line[a..b];
    StripExact(key, 0, |key|);
    assert key[0..|key|] == key;
  }

  /** The values `git_config_items` returns, or the failure of the first
      line it cannot unpack. */
  function ConfigFilter(lines: seq<string>, conf: string): (r: Result<seq<string>>)
    ensures r.Ok? ==> |r.value| <= |lines|
    ensures r.Err? ==> r.failure.TooFewFields? && r.failure.line in lines
  {
    if lines == [] then Ok([])
    else Then(ConfigFilter(lines[..|lines| - 1], conf), LineItems(lines[|lines| - 1], conf))
  }

  /** Values from two stretches of lines, the first failure first. */
  function Then(x: Result<seq<string>>, y: Result<seq<string>>): Result<seq<string>> {
    if x.Err? then x else if y.Err? then y else Ok(x.value + y.value)
  }

  /** Filtering a concatenation: the first failure wins, otherwise the
      values of the two parts follow each other. */
  lemma {:induction false} ConfigFilterAppend(xs: seq<string>, ys: seq<string>, conf: string)
    ensures ConfigFilter(xs + ys, conf) == Then(ConfigFilter(xs, conf), ConfigFilter(ys, conf))
  {
    if ys == [] {
      AppendEmpty(xs);
      var x := ConfigFilter(xs, conf);
      assert x.Ok? ==> x.value + [] == x.value;
    } else {
      var n := |ys| - 1;
      InitOfAppend(xs, ys);
      assert (xs + ys)[|xs + ys| - 1] == ys[n];
      ConfigFilterAppend(xs, ys[..n], conf);
      ThenAssociative(ConfigFilter(xs, conf), ConfigFilter(ys[..n], conf), LineItems(ys[n], conf));
    }
  }

  lemma ThenAssociative(x: Result<seq<string>>, y: Result<seq<string>>, z: Result<seq<string>>)
    ensures Then(Then(x, y), z) == Then(x, Then(y, z))
  {
    if x.Ok? && y.Ok? && z.Ok? {
      assert (x.value + y.value) + z.value == x.value + (y.value + z.value);
    }
  }

  /** The positions of the lines whose key is `conf`, in increasing order. */
  function KeyLines(lines: seq<string>, conf: string): (idx: seq<nat>)
    ensures forall j :: 0 <= j < |idx| ==> idx[j] < |lines|
    ensures forall j, k :: 0 <= j < k < |idx| ==> idx[j] < idx[k]
    ensures forall i :: 0 <= i < |lines| ==>
              (i in idx <==> SplitOnce(lines[i]).Some? && SplitOnce(lines[i]).value.0 == conf)
  {
    Where(lines, line => HasKey(line, conf))
  }

  predicate HasKey(line: string, conf: string) {
    SplitOnce(line).Some? && SplitOnce(line).value.0 == conf
  }

  /** A line contributes without failing exactly when it unpacks. */
  lemma LineItemsOk(line: string, conf: string)
    ensures LineItems(line, conf).Ok? <==> SplitOnce(line).Some?
  {
  }

  /** Filtering succeeds exactly when every line unpacks. */
  lemma {:induction false} ConfigFilterOkSplit(lines: seq<string>, conf: string)
    ensures ConfigFilter(lines, conf).Ok? <==> AllSplit(lines)
  {
    if lines != [] {
      var n := |lines| - 1;
      InitLast(lines);
      ConfigFilterOkSplit(lines[..n], conf);
      ConfigFilterOkSnoc(lines[..n], lines[n], conf);
    }
  }

  ghost predicate AllSplit(lines: seq<string>) {
    forall i :: 0 <= i < |lines| ==> SplitOnce(lines[i]).Some?
  }

  lemma ConfigFilterOkSnoc(init: seq<string>, last: string, conf: string)
    requires ConfigFilter(init, conf).Ok? <==> AllSplit(init)
    ensures ConfigFilter(init + [last], conf).Ok? <==> AllSplit(init + [last])
  {
    ConfigFilterSnoc(init, last, conf);
    LineItemsOk(last, conf);
    var lines := init + [last];
    assert forall i :: 0 <= i < |init| ==> lines[i] == init[i];
    assert lines[|init|] == last;
  }

  /** Filtering succeeds exactly when every line has two fields. */
  lemma ConfigFilterOk(lines: seq<string>, conf: string)
    ensures ConfigFilter(lines, conf).Ok? <==> forall i :: 0 <= i < |lines| ==> HasTwoFields(lines[i])
  {
    ConfigFilterOkSplit(lines, conf);
    forall i | 0 <= i < |lines| {
      SplitOnceDefined(lines[i]);
    }
  }

  /** The contribution of a line that unpacks, in terms of its two fields. */
  lemma LineItemsValue(line: string, conf: string)
    requires SplitOnce(line).Some?
    ensures var (key, item) := SplitOnce(line).value;
            LineItems(line, conf) == Ok(if key == conf then [Strip(item)] else [])
  {
    var a := Span(line, 0, IsSpace);
    var b := Span(line, a, IsNonSpace);
    var c := Span(line, b, IsSpace);
    LineItemsKeyExact(line, conf, a, b, c);
  }

  /** When filtering succeeds, the j-th value is the stripped value of the
      j-th line whose key is exactly `conf`. */
  lemma {:induction false} ConfigFilterSelects(lines: seq<string>, conf: string)
    requires ConfigFilter(lines, conf).Ok?
    ensures SelectsKeyLines(lines, conf)
  {
    if lines != [] {
      var n := |lines| - 1;
      InitLast(lines);
      ConfigFilterSnoc(lines[..n], lines[n], conf);
      ConfigFilterSelects(lines[..n], conf);
      ConfigFilterSelectsSnoc(lines[..n], lines[n], conf);
    }
  }

  /** The values are the stripped values of the lines KeyLines lists. */
  ghost predicate SelectsKeyLines(lines: seq<string>, conf: string)
    requires ConfigFilter(lines, conf).Ok?
  {
    var items, idx := ConfigFilter(lines, conf).value, KeyLines(lines, conf);
    |items| == |idx| && forall j :: 0 <= j < |idx| ==> items[j] == Strip(SplitOnce(lines[idx[j]]).value.1)
  }

  lemma ConfigFilterSelectsSnoc(init: seq<string>, last: string, conf: string)
    requires ConfigFilter(init + [last], conf).Ok?
    requires ConfigFilter(init, conf).Ok? && SelectsKeyLines(init, conf)
    ensures SelectsKeyLines(init + [last], conf)
  {
    var lines := init + [last];
    var items, idx := ConfigFilter(lines, conf).value, KeyLines(lines, conf);
    var items0, idx0 := ConfigFilter(init, conf).value, KeyLines(init, conf);
    var split := SplitOnce(last).value;
    var extra := if split.0 == conf then [Strip(split.1)] else [];
    assert items == items0 + extra by {
      ConfigFilterSnoc(init, last, conf);
      LineItemsValue(last, conf);
    }
    KeyLinesSnoc(init, last, conf);
    forall j | 0 <= j < |idx|
      ensures items[j] == Strip(SplitOnce(lines[idx[j]]).value.1)
    {
      if j < |idx0| {
        assert idx[j] == idx0[j] && items[j] == items0[j];
        assert lines[idx[j]] == init[idx0[j]];
      }
    }
  }

  /** One more line adds its own position when its key is `conf`. */
  lemma KeyLinesSnoc(init: seq<string>, last: string, conf: string)
    ensures KeyLines(init + [last], conf) == KeyLines(init, conf) + if HasKey(last, conf) then [|init|] else []
  {
    InitOfSnoc(init, last);
  }

  /** Line i is the first of `lines` without two fields. */
  ghost predicate FirstBadLine(lines: seq<string>, i: int) {
    0 <= i < |lines| && !HasTwoFields(lines[i]) && forall j :: 0 <= j < i ==> HasTwoFields(lines[j])
  }

  /** A failure names the first line that has fewer than two fields. */
  lemma {:induction false} ConfigFilterFirstFailure(lines: seq<string>, conf: string)
    requires ConfigFilter(lines, conf).Err?
    ensures exists i :: 0 <= i < |lines| && ConfigFilter(lines, conf) == Err(TooFewFields(lines[i]))
              && !HasTwoFields(lines[i]) && forall j :: 0 <= j < i ==> HasTwoFields(lines[j])
  {
    var n := |lines| - 1;
    var init, last := lines[..n], lines[n];
    assert ConfigFilter(lines, conf) == Then(ConfigFilter(init, conf), LineItems(last, conf)) by {
      InitLast(lines);
      ConfigFilterSnoc(init, last, conf);
    }
    if ConfigFilter(init, conf).Err? {
      ConfigFilterFirstFailure(init, conf);
      var i :| 0 <= i < |init| && ConfigFilter(init, conf) == Err(TooFewFields(init[i]))
               && !HasTwoFields(init[i]) && forall j :: 0 <= j < i ==> HasTwoFields(init[j]);
      assert lines[i] == init[i] && forall j :: 0 <= j < i ==> lines[j] == init[j];
      assert ConfigFilter(lines, conf) == Err(TooFewFields(lines[i]));
    } else {
      assert ConfigFilter(lines, conf) == Err(TooFewFields(lines[n])) && !HasTwoFields(lines[n])
             && forall j :: 0 <= j < n ==> HasTwoFields(lines[j]) by {
        assert forall j :: 0 <= j < n ==> lines[j] == init[j];
        ConfigFilterOk(init, conf);
        LineItemsOk(last, conf);
        SplitOnceDefined(last);
      }
    }
  }

  /** Filtering one more line: the line's own contribution follows. */
  lemma ConfigFilterSnoc(pre: seq<string>, line: string, conf: string)
    ensures ConfigFilter(pre + [line], conf) == Then(ConfigFilter(pre, conf), LineItems(line, conf))
  {
    InitOfSnoc(pre, line);
  }

  /** A line that does not unpack ends the filtering with its failure. */
  lemma ConfigFilterStop(lines: seq<string>, i: nat, conf: string)
    requires i < |lines| && ConfigFilter(lines[..i], conf).Ok?
    requires SplitOnce(lines[i]).None?
    ensures ConfigFilter(lines, conf) == Err(TooFewFields(lines[i]))
  {
    PartsAt(lines, i);
    ConfigFilterStopAt(lines[..i], lines[i], lines[i + 1..], conf);
  }

  lemma ConfigFilterStopAt(pre: seq<string>, line: string, post: seq<string>, conf: string)
    requires ConfigFilter(pre, conf).Ok? && SplitOnce(line).None?
    ensures ConfigFilter(pre + [line] + post, conf) == Err(TooFewFields(line))
  {
    ConfigFilterSnoc(pre, line, conf);
    ConfigFilterAppend(pre + [line], post, conf);
  }

  /** The loop of `git_config_items` over the lines of the query's output. */
  method ConfigItems(lines: seq<string>, conf: string) returns (r: Result<seq<string>>)
    ensures r == ConfigFilter(lines, conf)
  {
    var itemsList := [];
    for i := 0 to |lines|
      invariant ConfigFilter(lines[..i], conf) == Ok(itemsList)
    {
      var fields := SplitOnce(lines[i]);
      if fields.None? {
        ConfigFilterStop(lines, i, conf);
        return Err(TooFewFields(lines[i]));
      }
      var (confLine, item) := fields.value;
      TakeSnoc(lines, i);
      ConfigFilterSnoc(lines[..i], lines[i], conf);
      if Strip(confLine) == conf {
        itemsList := itemsList + [Strip(item)];
      } else {
        AppendEmpty(itemsList);
      }
    }
    TakeAll(lines);
    r := Ok(itemsList);
  }

  /** A single line `key value` (one space between them, a value with no
      surrounding whitespace) gives the value when the key is `conf`, and
      nothing otherwise. */
  lemma KeyValueLine(line: string, key: string, value: string, conf: string)
    requires line == key + " " + value
    requires key != [] && Run(key, 0, |key|, IsNonSpace)
    requires value != [] && !IsSpace(value[0]) && !IsSpace(value[|value| - 1])
    ensures ConfigFilter([line], conf) == Ok(if key == conf then [value] else [])
  {
    var b := |key|;
    assert Fields(line, 0, b, b + 1) && line[0..b] == key && line[b + 1..] == value by {
      assert forall k :: 0 <= k < b ==> line[k] == key[k];
      assert line[b] == ' ' && line[b + 1] == value[0];
    }
    assert Strip(value) == value by {
      StripExact(value, 0, |value|);
      assert value[0..|value|] == value;
    }
    LineItemsKeyExact(line, conf, 0, b, b + 1);
    var none: seq<string> := [];
    ConfigFilterSnoc(none, line, conf);
    assert none + [line] == [line];
    assert LineItems(line, conf).Ok?;
    assert none + LineItems(line, conf).value == LineItems(line, conf).value;
  }

  /** A key that only starts with the requested one is not kept: the
      unanchored pattern of `--get-regexp` lets `user.emailx` through, and
      the comparison at the key drops it. */
  lemma LongerKeyIgnored(line: string, conf: string, suffix: string, value: string)
    requires line == conf + suffix + " " + value
    requires conf != [] && Run(conf, 0, |conf|, IsNonSpace)
    requires suffix != [] && Run(suffix, 0, |suffix|, IsNonSpace)
    requires value != [] && !IsSpace(value[0]) && !IsSpace(value[|value| - 1])
    ensures ConfigFilter([line], conf) == Ok([])
  {
    var key := conf + suffix;
    assert Run(key, 0, |key|, IsNonSpace) by {
      assert forall k :: 0 <= k < |key| ==> key[k] == if k < |conf| then conf[k] else suffix[k - |conf|];
    }
    assert |key| != |conf|;
    KeyValueLine(line, key, value, conf);
  }
}
