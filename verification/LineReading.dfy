/** What the reader of Exposition can give, whatever text it gets: samples with
    names the format allows, one for each line that is no comment. */
module LineReading {
  import opened Basics
  import opened Exposition

  /** Only names the format allows. */
  predicate AllowedSample(x: Sample) {
    && MetricName(x.name) && |x.keys| == |x.values|
    && forall i | 0 <= i < |x.keys| :: LabelName(x.keys[i])
  }

  predicate AllowedSamples(xs: seq<Sample>) {
    forall i | 0 <= i < |xs| :: AllowedSample(xs[i])
  }

  lemma AllowedBoth(xs: seq<Sample>, ys: seq<Sample>)
    ensures AllowedSamples(xs + ys) <==> AllowedSamples(xs) && AllowedSamples(ys)
  {
    hide AllowedSample;
    if AllowedSamples(xs + ys) {
      forall i | 0 <= i < |xs| ensures AllowedSample(xs[i]) { assert (xs + ys)[i] == xs[i]; }
      forall i | 0 <= i < |ys| ensures AllowedSample(ys[i]) { assert (xs + ys)[|xs| + i] == ys[i]; }
    }
  }

  /** Lines that are no comments; an unfinished last line counts. */
  function DataLines(s: string): nat
    decreases |s|
  {
    if s == [] then 0 else (if s[0] == '#' then 0 else 1) + DataLines(SkipLine(s))
  }

  predicate WholeLines(s: string) {
    s == [] || s[|s| - 1] == '\n'
  }

  // ---- a sample takes one line -----------------------------------------------------------

  lemma {:induction false} SpanLine(p: char -> bool, s: string)
    requires !p('\n')
    ensures SkipLine(s) == SkipLine(s[Span(p, s)..])
  {
    if s != [] && p(s[0]) {
      SpanLine(p, s[1..]);
      assert s[1..][Span(p, s[1..])..] == s[Span(p, s)..];
    } else {
      assert s[0..] == s;
    }
  }

  lemma LaterLine(s: string, n: nat)
    requires n <= |s| && forall i | 0 <= i < n :: s[i] != '\n'
    ensures SkipLine(s) == SkipLine(s[n..])
  {
    if n > 0 {
      LaterLine(s[1..], n - 1);
      assert s[1..][n - 1..] == s[n..];
    } else {
      assert s[0..] == s;
    }
  }

  lemma {:induction false} StringLine(s: string)
    ensures match ReadString(s)
            case None => true
            case Some((_, rest)) => SkipLine(s) == SkipLine(rest)
    decreases |s|
  {
    if s != [] && s[0] != '\n' && s[0] != '"' {
      if s[0] != '\\' {
        StringLine(s[1..]);
      } else if |s| > 1 && s[1] != '\n' {
        StringLine(s[2..]);
        LaterLine(s, 2);
      }
    }
  }

  /** What ReadLabels returns. */
  predicate LabelsRead(s: string, l: Labels) {
    && |l.keys| == |l.values| && (forall i | 0 <= i < |l.keys| :: LabelName(l.keys[i]))
    && SkipLine(s) == SkipLine(l.rest)
  }

  lemma {:induction false} ReadLabelsFacts(s: string)
    ensures ReadLabels(s).Some? ==> LabelsRead(s, ReadLabels(s).value)
    decreases |s|
  {
    hide ReadString, Span;
    var n := Span(NameChar, s);
    if ReadLabels(s).Some? {
      LaterLine(s, n + 2);
      StringLine(s[n + 2..]);
      var rest := ReadString(s[n + 2..]).value.1;
      assert SkipLine(rest) == SkipLine(rest[1..]);
      assert LabelName(s[..n]);
      if rest[0] == ',' {
        ReadLabelsFacts(rest[1..]);
      }
    }
  }

  lemma ReadBlockFacts(s: string)
    ensures ReadBlock(s).Some? ==> LabelsRead(s, ReadBlock(s).value)
  {
    hide ReadLabels;
    if s != [] && s[0] == '{' {
      if |s| > 1 && s[1] == '}' {
        LaterLine(s, 2);
      } else {
        ReadLabelsFacts(s[1..]);
      }
    }
  }

  lemma ReadSampleFacts(s: string)
    ensures match ReadSample(s)
            case None => true
            case Some((x, rest)) => AllowedSample(x) && s != [] && s[0] != '#' && rest == SkipLine(s)
  {
    hide ReadBlock, Span;
    if ReadSample(s).Some? {
      var n := Span(MetricNameChar, s);
      SpanLine(MetricNameChar, s);
      ReadBlockFacts(s[n..]);
      var l := ReadBlock(s[n..]).value;
      var number := l.rest[1..];
      SpanLine(c => c != '\n', number);
      var m := Span(c => c != '\n', number);
      assert number[m..][1..] == l.rest[2 + m..];
      assert MetricName(s[..n]);
    }
  }

  /** Whatever the text, a reader gets one sample for each line that is no comment,
      and names the format allows. */
  lemma {:induction false} ReadSamplesFacts(s: string)
    ensures match ReadSamples(s)
            case None => true
            case Some(xs) => AllowedSamples(xs) && |xs| == DataLines(s)
    decreases |s|
  {
    hide ReadSample, AllowedSample, SkipLine;
    if s != [] {
      ReadSampleFacts(s);
      ReadSamplesFacts(SkipLine(s));
    }
  }

  // ---- text by text ----------------------------------------------------------------------

  lemma {:induction false} SkipInFirst(a: string, b: string)
    requires a != [] && WholeLines(a)
    ensures SkipLine(a + b) == SkipLine(a) + b && WholeLines(SkipLine(a))
  {
    assert (a + b)[1..] == a[1..] + b;
    if a[0] != '\n' {
      SkipInFirst(a[1..], b);
    }
  }

  lemma {:induction false} DataBoth(a: string, b: string)
    requires WholeLines(a)
    ensures DataLines(a + b) == DataLines(a) + DataLines(b)
    decreases |a|
  {
    if a == [] {
      assert a + b == b;
    } else {
      SkipInFirst(a, b);
      DataBoth(SkipLine(a), b);
      hide SkipLine;
    }
  }

  lemma WholeBoth(a: string, b: string)
    requires WholeLines(a) && WholeLines(b)
    ensures WholeLines(a + b)
  {
    assert b == [] ==> a + b == a;
  }

  /** Whole comment lines are skipped. */
  lemma {:induction false} CommentsSkipped(s: string, rest: string)
    requires WholeLines(s) && DataLines(s) == 0
    ensures ReadSamples(s + rest) == ReadSamples(rest)
    decreases |s|
  {
    if s == [] {
      assert s + rest == rest;
    } else {
      SkipInFirst(s, rest);
      CommentsSkipped(SkipLine(s), rest);
      hide SkipLine, ReadSample;
      assert (s + rest)[0] == '#';
    }
  }

  lemma OneLine(line: string)
    requires '\n' !in line && line != []
    ensures DataLines(line + "\n") == if line[0] == '#' then 0 else 1
    ensures Lines(line + "\n") == 1 && WholeLines(line + "\n")
  {
    SkipOneLine(line, "");
    assert line + "\n" + "" == line + "\n";
    NoLines(line);
    LinesAppend(line, "\n");
    hide Lines, SkipLine;
    LineFeed();
  }

  lemma LineFeed()
    ensures Lines("\n") == 1
  {
  }

  /** n lines, none of them a comment. */
  predicate SampleLines(s: string, n: nat) {
    WholeLines(s) && Lines(s) == n && DataLines(s) == n
  }

  lemma NoSampleLines()
    ensures SampleLines("", 0)
  {
  }

  lemma SampleLinesBoth(a: string, n: nat, b: string, k: nat)
    requires SampleLines(a, n) && SampleLines(b, k)
    ensures SampleLines(a + b, n + k)
  {
    hide Lines, DataLines, WholeLines;
    WholeBoth(a, b);
    LinesAppend(a, b);
    DataBoth(a, b);
  }

  // ---- line feeds in a comment -------------------------------------------------------------

  /** Every line feed starts another comment line. */
  predicate CommentsGoOn(s: string) {
    forall i | 0 <= i < |s| && s[i] == '\n' :: i + 1 < |s| && s[i + 1] == '#'
  }

  lemma {:induction false} CommentsAhead(s: string)
    requires s != []
    ensures DataLines(SkipLine(s + "\n")) == 0 <==> CommentsGoOn(s)
    decreases |s|
  {
    var text := s + "\n";
    if s[0] == '\n' {
      assert text[1..] == s[1..] + "\n";
      assert |s| > 1 ==> s[1..][0] == s[1];
      if |s| > 1 && s[1] == '#' {
        CommentsAhead(s[1..]);
        Tail(s);
        assert (s[1..] + "\n")[0] == '#';
      } else {
        assert (s[1..] + "\n")[0] != '#';
      }
    } else {
      assert text[1..] == s[1..] + "\n";
      Tail(s);
      if |s| > 1 {
        CommentsAhead(s[1..]);
      } else {
        assert s[1..] + "\n" == "\n";
      }
    }
  }

  lemma Tail(s: string)
    requires s != []
    ensures CommentsGoOn(s) <==> CommentsGoOn(s[1..]) && (s[0] == '\n' ==> |s| > 1 && s[1] == '#')
  {
    if CommentsGoOn(s) {
      forall i | 0 <= i < |s[1..]| && s[1..][i] == '\n' ensures i + 1 < |s[1..]| && s[1..][i + 1] == '#' {
        assert s[i + 1] == '\n';
      }
    }
    if CommentsGoOn(s[1..]) && (s[0] == '\n' ==> |s| > 1 && s[1] == '#') {
      forall i | 0 <= i < |s| && s[i] == '\n' ensures i + 1 < |s| && s[i + 1] == '#' {
        if i > 0 { assert s[1..][i - 1] == '\n'; }
      }
    }
  }
}
