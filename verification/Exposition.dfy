/** Printing one sample line (internal/metric.go), and a reader for it that
    follows the "ABNF" and "Escaping" parts of the OpenMetrics 1.0.0 text
    format. */
module Exposition {
  import opened Basics
  import opened Resources

  /** strings.Builder */
  class Builder {
    var text: string

    constructor ()
      ensures text == ""
    {
      text := "";
    }

    method WriteString(s: string)
      modifies this
      ensures text == old(text) + s
    {
      text := text + s;
    }
  }

  // ---- printing --------------------------------------------------------------------

  function EscapeChar(c: char): string {
    if c == '\\' then "\\\\" else if c == '\n' then "\\n" else if c == '"' then "\\\"" else [c]
  }

  /** strings.NewReplacer on three single-byte patterns replaces byte by byte. */
  function Escape(s: string): string {
    if s == [] then "" else EscapeChar(s[0]) + Escape(s[1..])
  }

  function LabelsFrom(separator: string, keys: seq<string>, values: seq<string>): string
    requires |keys| <= |values|
    decreases keys
  {
    if keys == [] then "}"
    else separator + (keys[0] + ("=\"" + (Escape(values[0]) + ("\"" + LabelsFrom(",", keys[1..], values[1..])))))
  }

  function LabelBlock(keys: seq<string>, values: seq<string>): string
    requires |keys| <= |values|
  {
    if keys == [] then "" else LabelsFrom("{", keys, values)
  }

  method WriteLabels(b: Builder, keys: seq<string>, values: seq<string>)
    requires |keys| <= |values|
    modifies b
    ensures b.text == old(b.text) + LabelBlock(keys, values)
  {
    if |keys| == 0 {
      return;
    }
    ghost var before := b.text;
    var separator := "{";
    for i := 0 to |keys|
      invariant separator == if i == 0 then "{" else ","
      invariant b.text + LabelsFrom(separator, keys[i..], values[i..]) == before + LabelBlock(keys, values)
    {
      LabelsStep(b.text, separator, keys[i..], values[i..]);
      b.WriteString(separator);
      b.WriteString(keys[i]);
      b.WriteString("=\"");
      b.WriteString(Escape(values[i]));
      b.WriteString("\"");
      separator := ",";
      assert keys[i..][1..] == keys[i + 1..] && values[i..][1..] == values[i + 1..];
    }
    b.WriteString("}");
  }

  lemma LabelsStep(text: string, separator: string, keys: seq<string>, values: seq<string>)
    requires keys != [] && |keys| <= |values|
    ensures text + LabelsFrom(separator, keys, values)
         == text + separator + keys[0] + "=\"" + Escape(values[0]) + "\"" + LabelsFrom(",", keys[1..], values[1..])
  {
  }

  function AutoKeys(): seq<string> {
    ["group", "version", "kind", "name", "namespace"]
  }

  function AutoValues(o: Object): seq<string> {
    [o.group, o.version, o.kind, o.name, o.namespace]
  }

  predicate ValidNumber(x: Number, kind: MetricKind) {
    kind == Counter ==> x == PosInf || (x.Finite? && x.value >= 0.0)
  }

  /** The value expression can be written for this kind of metric. */
  predicate Writable(env: Env, value: string, kind: MetricKind) {
    env.parse(value).Some? && ValidNumber(env.parse(value).value, kind)
  }

  function ValueText(env: Env, value: string): string
    requires env.parse(value).Some?
  {
    env.format(env.parse(value).value)
  }

  method WriteValue(env: Env, b: Builder, value: string, kind: MetricKind) returns (ok: bool)
    modifies b
    ensures ok == Writable(env, value, kind)
    ensures ok ==> b.text == old(b.text) + (" " + ValueText(env, value) + "\n")
    ensures !ok ==> b.text == old(b.text) + " "
  {
    b.WriteString(" ");
    var number := env.parse(value);
    if number.None? {
      return false;
    }
    ok := ValidateValue(number.value, kind);
    if ok {
      b.WriteString(env.format(number.value));
      b.WriteString("\n");
    }
  }

  /** Counters must be neither NaN nor negative. */
  method ValidateValue(x: Number, kind: MetricKind) returns (ok: bool)
    ensures ok == ValidNumber(x, kind)
  {
    if kind == Counter {
      if x == NaN {
        return false;
      }
      if x == NegInf || (x.Finite? && x.value < 0.0) {
        return false;
      }
    }
    return true;
  }

  /** What follows the metric name on a sample line. */
  function SampleTail(env: Env, o: Object, keys: seq<string>, values: seq<string>, value: string): string
    requires |keys| == |values| && env.parse(value).Some?
  {
    LabelBlock(keys + AutoKeys(), values + AutoValues(o)) + (" " + ValueText(env, value) + "\n")
  }

  /** On failure the labels and a space stay behind in the builder. */
  method WriteMetricTo(env: Env, b: Builder, o: Object, value: string, keys: seq<string>, values: seq<string>,
                       kind: MetricKind) returns (ok: bool)
    requires |keys| == |values|
    modifies b
    ensures ok == Writable(env, value, kind)
    ensures ok ==> b.text == old(b.text) + SampleTail(env, o, keys, values, value)
    ensures !ok ==> b.text == old(b.text) + LabelBlock(keys + AutoKeys(), values + AutoValues(o)) + " "
  {
    var allKeys, allValues := keys + AutoKeys(), values + AutoValues(o);
    WriteLabels(b, allKeys, allValues);
    ok := WriteValue(env, b, value, kind);
  }

  // ---- reading ----------------------------------------------------------------------

  predicate NameStart(c: char) {
    'a' <= c <= 'z' || 'A' <= c <= 'Z' || c == '_'
  }

  predicate NameChar(c: char) {
    NameStart(c) || '0' <= c <= '9'
  }

  predicate LabelName(s: string) {
    s != [] && NameStart(s[0]) && forall i | 0 <= i < |s| :: NameChar(s[i])
  }

  predicate MetricNameChar(c: char) {
    NameChar(c) || c == ':'
  }

  predicate MetricName(s: string) {
    s != [] && (NameStart(s[0]) || s[0] == ':') && forall i | 0 <= i < |s| :: MetricNameChar(s[i])
  }

  /** Length of the longest prefix of characters satisfying p. */
  function Span(p: char -> bool, s: string): (n: nat)
    ensures n <= |s|
    ensures forall i | 0 <= i < n :: p(s[i])
    ensures n < |s| ==> !p(s[n])
  {
    if s != [] && p(s[0]) then 1 + Span(p, s[1..]) else 0
  }

  lemma {:induction false} SpanOf(p: char -> bool, a: string, b: string)
    requires forall i | 0 <= i < |a| :: p(a[i])
    requires b != [] ==> !p(b[0])
    ensures Span(p, a + b) == |a|
  {
    if a == [] {
      assert a + b == b;
    } else {
      assert (a + b)[1..] == a[1..] + b;
      SpanOf(p, a[1..], b);
    }
  }

  /** A quoted label value, read after its opening quote. */
  function ReadString(s: string): Option<(string, string)> {
    if s == [] || s[0] == '\n' then None
    else if s[0] == '"' then Some(("", s[1..]))
    else if s[0] != '\\' then Prefix([s[0]], ReadString(s[1..]))
    else if |s| == 1 || s[1] == '\n' then None
    else if s[1] == 'n' then Prefix("\n", ReadString(s[2..]))
    else if s[1] == '\\' || s[1] == '"' then Prefix([s[1]], ReadString(s[2..]))
    else Prefix(s[..2], ReadString(s[2..]))
  }

  function Prefix(p: string, r: Option<(string, string)>): Option<(string, string)> {
    match r
    case None => None
    case Some((v, rest)) => Some((p + v, rest))
  }

  datatype Labels = Labels(keys: seq<string>, values: seq<string>, rest: string)

  /** One or more labels and the closing brace, read after "{" or ",". */
  function ReadLabels(s: string): Option<Labels>
    decreases |s|
  {
    var n := Span(NameChar, s);
    if n == 0 || !NameStart(s[0]) || |s| < n + 2 || s[n] != '=' || s[n + 1] != '"' then None
    else
      match ReadString(s[n + 2..])
      case None => None
      case Some((value, rest)) =>
        if rest == [] || |rest| >= |s| then None
        else if rest[0] == '}' then Some(Labels([s[..n]], [value], rest[1..]))
        else if rest[0] != ',' then None
        else match ReadLabels(rest[1..])
             case None => None
             case Some(l) => Some(Labels([s[..n]] + l.keys, [value] + l.values, l.rest))
  }

  function ReadBlock(s: string): Option<Labels> {
    if s == [] || s[0] != '{' then Some(Labels([], [], s))
    else if |s| > 1 && s[1] == '}' then Some(Labels([], [], s[2..]))
    else ReadLabels(s[1..])
  }

  datatype Sample = Sample(name: string, keys: seq<string>, values: seq<string>, number: string)

  /** A sample line without timestamp or exemplar, and what follows it. */
  function ReadSample(s: string): Option<(Sample, string)> {
    var n := Span(MetricNameChar, s);
    if n == 0 || !(NameStart(s[0]) || s[0] == ':') then None
    else
      match ReadBlock(s[n..])
      case None => None
      case Some(l) =>
        if l.rest == [] || l.rest[0] != ' ' then None
        else
          var m := Span(c => c != '\n', l.rest[1..]);
          if 1 + m == |l.rest| then None
          else Some((Sample(s[..n], l.keys, l.values, l.rest[1..1 + m]), l.rest[2 + m..]))
  }

  /** What follows the first line. */
  function SkipLine(s: string): (rest: string)
    ensures |rest| <= |s| && (s != [] ==> |rest| < |s|)
  {
    if s == [] then [] else if s[0] == '\n' then s[1..] else SkipLine(s[1..])
  }

  /** The samples of a text; "# HELP" and "# TYPE" lines and other comments are
      skipped. */
  function ReadSamples(s: string): Option<seq<Sample>>
    decreases |s|
  {
    if s == [] then Some([])
    else if s[0] == '#' then ReadSamples(SkipLine(s))
    else match ReadSample(s)
         case None => None
         case Some((sample, rest)) =>
           if |rest| >= |s| then None
           else match ReadSamples(rest)
                case None => None
                case Some(more) => Some([sample] + more)
  }

  // ---- round trips ---------------------------------------------------------------------

  lemma EscapedCharRead(c: char, tail: string)
    ensures ReadString(EscapeChar(c) + tail) == Prefix([c], ReadString(tail))
  {
    var e := EscapeChar(c);
    assert (e + tail)[|e|..] == tail;
    assert (e + tail)[0] == e[0];
    assert |e| == 2 ==> (e + tail)[1] == e[1];
  }

  lemma {:induction false} StringRoundTrip(v: string, rest: string)
    ensures ReadString(Escape(v) + ("\"" + rest)) == Some((v, rest))
  {
    if v == [] {
      assert Escape(v) + ("\"" + rest) == "\"" + rest;
      assert ("\"" + rest)[1..] == rest;
    } else {
      var tail := Escape(v[1..]) + ("\"" + rest);
      assert Escape(v) + ("\"" + rest) == EscapeChar(v[0]) + tail;
      EscapedCharRead(v[0], tail);
      StringRoundTrip(v[1..], rest);
      assert v == [v[0]] + v[1..];
    }
  }

  /** The first label of what ReadLabels is given, taken apart. */
  lemma FirstLabel(k: string, v: string, tail: string)
    requires LabelName(k)
    ensures var s := k + ("=\"" + (Escape(v) + ("\"" + tail)));
            && Span(NameChar, s) == |k| && s[..|k|] == k && s[0] == k[0]
            && |s| >= |k| + 2 && s[|k|] == '=' && s[|k| + 1] == '"'
            && ReadString(s[|k| + 2..]) == Some((v, tail)) && |tail| < |s|
  {
    var after := Escape(v) + ("\"" + tail);
    SpanOf(NameChar, k, "=\"" + after);
    StringRoundTrip(v, tail);
    assert (k + ("=\"" + after))[|k| + 2..] == after;
  }

  lemma {:induction false} LabelsRoundTrip(keys: seq<string>, values: seq<string>, rest: string)
    requires |keys| == |values| && keys != []
    requires forall i | 0 <= i < |keys| :: LabelName(keys[i])
    ensures ReadLabels(LabelsFrom("", keys, values) + rest) == Some(Labels(keys, values, rest))
  {
    hide ReadString, Span, Escape, LabelName;
    var k, v := keys[0], values[0];
    var tail := LabelsFrom(",", keys[1..], values[1..]) + rest;
    assert LabelsFrom("", keys, values) + rest == k + ("=\"" + (Escape(v) + ("\"" + tail)));
    FirstLabel(k, v, tail);
    LabelNameStart(k);
    assert keys == [k] + keys[1..] && values == [v] + values[1..];
    if |keys| == 1 {
      assert tail == "}" + rest && tail[1..] == rest;
      assert keys == [k] && values == [v];
    } else {
      Separated(",", keys[1..], values[1..]);
      assert tail == "," + (LabelsFrom("", keys[1..], values[1..]) + rest);
      assert tail[1..] == LabelsFrom("", keys[1..], values[1..]) + rest;
      LabelsRoundTrip(keys[1..], values[1..], rest);
    }
  }

  lemma LabelNameStart(k: string)
    requires LabelName(k)
    ensures k != [] && NameStart(k[0])
  {
  }

  lemma Separated(separator: string, keys: seq<string>, values: seq<string>)
    requires |keys| == |values| && keys != []
    ensures LabelsFrom(separator, keys, values) == separator + LabelsFrom("", keys, values)
    ensures LabelsFrom("", keys, values) != [] && (keys[0] != [] ==> LabelsFrom("", keys, values)[0] == keys[0][0])
  {
    var x := keys[0] + ("=\"" + (Escape(values[0]) + ("\"" + LabelsFrom(",", keys[1..], values[1..]))));
    assert LabelsFrom("", keys, values) == "" + x;
    assert "" + x == x;
  }

  lemma BlockRead(x: string)
    requires x != [] && x[0] != '}'
    ensures ReadBlock("{" + x) == ReadLabels(x)
  {
    hide ReadLabels;
    assert ("{" + x)[1..] == x;
  }

  /** Reading a printed label block gives back exactly the keys and values. */
  lemma LabelBlockRoundTrip(keys: seq<string>, values: seq<string>, rest: string)
    requires |keys| == |values|
    requires forall i | 0 <= i < |keys| :: LabelName(keys[i])
    requires keys == [] && rest != [] ==> rest[0] != '{'
    ensures ReadBlock(LabelBlock(keys, values) + rest) == Some(Labels(keys, values, rest))
  {
    hide LabelsFrom, ReadLabels, LabelBlock;
    if keys == [] {
      NoBlock(values, rest);
    } else {
      hide ReadBlock;
      LabelsRoundTrip(keys, values, rest);
      LabelNameStart(keys[0]);
      BlockText(keys, values, rest);
      BlockRead(LabelsFrom("", keys, values) + rest);
    }
  }

  lemma NoBlock(values: seq<string>, rest: string)
    ensures LabelBlock([], values) + rest == rest
  {
  }

  lemma BlockText(keys: seq<string>, values: seq<string>, rest: string)
    requires |keys| == |values| && keys != [] && keys[0] != []
    ensures var x := LabelsFrom("", keys, values) + rest;
            LabelBlock(keys, values) + rest == "{" + x && x != [] && x[0] == keys[0][0]
  {
    hide LabelsFrom;
    Separated("{", keys, values);
    assert ("{" + LabelsFrom("", keys, values)) + rest == "{" + (LabelsFrom("", keys, values) + rest);
  }

  /** So the printed block determines the labels. */
  lemma LabelBlockInjective(k1: seq<string>, v1: seq<string>, k2: seq<string>, v2: seq<string>)
    requires |k1| == |v1| && |k2| == |v2|
    requires forall i | 0 <= i < |k1| :: LabelName(k1[i])
    requires forall i | 0 <= i < |k2| :: LabelName(k2[i])
    requires LabelBlock(k1, v1) == LabelBlock(k2, v2)
    ensures k1 == k2 && v1 == v2
  {
    LabelBlockRoundTrip(k1, v1, "");
    LabelBlockRoundTrip(k2, v2, "");
  }

  /** The number and what follows it. */
  lemma NumberRoundTrip(number: string, rest: string)
    requires '\n' !in number
    ensures var s := " " + number + "\n" + rest;
            && Span(c => c != '\n', s[1..]) == |number| && 1 + |number| < |s| && s[0] == ' '
            && s[1..1 + |number|] == number && s[2 + |number|..] == rest
  {
    var s := " " + number + "\n" + rest;
    assert s[1..] == number + ("\n" + rest);
    SpanOf(c => c != '\n', number, "\n" + rest);
  }

  lemma SampleRoundTrip(name: string, keys: seq<string>, values: seq<string>, number: string, rest: string)
    requires MetricName(name) && |keys| == |values|
    requires forall i | 0 <= i < |keys| :: LabelName(keys[i])
    requires '\n' !in number
    ensures ReadSample(name + (LabelBlock(keys, values) + (" " + number + "\n" + rest)))
         == Some((Sample(name, keys, values, number), rest))
  {
    hide ReadBlock, LabelsFrom;
    var after := " " + number + "\n" + rest;
    var block := LabelBlock(keys, values) + after;
    EndsName(keys, values, after);
    SpanOf(MetricNameChar, name, block);
    assert (name + block)[|name|..] == block && (name + block)[..|name|] == name;
    LabelBlockRoundTrip(keys, values, after);
    NumberRoundTrip(number, rest);
  }

  lemma EndsName(keys: seq<string>, values: seq<string>, after: string)
    requires |keys| == |values| && after != [] && after[0] == ' '
    ensures var s := LabelBlock(keys, values) + after; s != [] && !MetricNameChar(s[0])
  {
  }

  lemma {:induction false} SkipOneLine(line: string, rest: string)
    requires '\n' !in line
    ensures SkipLine(line + "\n" + rest) == rest
  {
    var s := line + "\n" + rest;
    if line == [] {
      assert s[0] == '\n' && s[1..] == rest;
    } else {
      SkipOneLine(line[1..], rest);
      assert s[0] == line[0] && s[1..] == line[1..] + "\n" + rest;
    }
  }
}
