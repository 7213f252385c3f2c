/**
 * What parsing promises about the text the formatter writes: for families
 * whose names, label values, help and type texts stay inside the characters
 * the two sides agree on, writing and reading back gives the same families.
 * Also the edges where they disagree.
 */
module PrometheusRoundTrip {
  import opened Wrappers
  import opened Seqs
  import opened Text
  import opened Float
  import opened PrometheusParser
  import opened PrometheusFormat

  /** Characters of metric and label names. */
  predicate IsNameChar(c: char)
  {
    ('a' <= c <= 'z') || ('A' <= c <= 'Z') || ('0' <= c <= '9') || c == '_' || c == ':'
  }

  predicate IsName(s: string)
  {
    s != [] && forall i :: 0 <= i < |s| ==> IsNameChar(s[i])
  }

  /**
   * A label value the parser reads back unchanged: no comma (pairs are split
   * on it), no closing brace (the label text ends at the first one) and no
   * double quote at the end (trimming the quotes would take the escaped one
   * with them).
   */
  predicate IsPlainLabelValue(v: string)
  {
    (forall i :: 0 <= i < |v| ==> v[i] != ',' && v[i] != '}') && (v != [] ==> v[|v| - 1] != '"')
  }

  /** A help or type text that survives the line being trimmed and split into lines. */
  predicate IsMetaText(t: string)
  {
    t != [] && '\n' !in t && !IsWhitespace(t[|t| - 1])
  }

  ghost predicate WellFormedSample(s: MetricSample)
  {
    IsName(s.name) && IsNormal(s.value)
    && (s.timestamp.Some? ==> I64Min <= s.timestamp.value <= I64Max)
    && forall k :: k in s.labels ==> IsName(k) && IsPlainLabelValue(s.labels[k])
  }

  lemma NameFacts(s: string)
    requires IsName(s)
    ensures '{' !in s && '}' !in s && ' ' !in s && '=' !in s && ',' !in s && '\n' !in s && '"' !in s
    ensures s[0] != '#' && !IsWhitespace(s[0]) && !IsWhitespace(s[|s| - 1])
  {
    assert IsNameChar(s[0]) && IsNameChar(s[|s| - 1]);
  }

  lemma DigitsFacts(s: string)
    requires AllDigits(s)
    ensures HasNoWhitespace(s) && '{' !in s && '}' !in s && '\n' !in s
  {
  }

  lemma IntToStringFacts(n: int)
    ensures IsWord(IntToString(n)) && '{' !in IntToString(n) && '}' !in IntToString(n) && '\n' !in IntToString(n)
  {
    if n < 0 {
      DigitsFacts(NatToString(-n));
    } else {
      DigitsFacts(NatToString(n));
    }
  }

  lemma ValueTextFacts(v: F64)
    ensures IsWord(F64Text(v)) && '{' !in F64Text(v) && '}' !in F64Text(v) && '\n' !in F64Text(v)
  {
    var t := F64Text(v);
    if v.Decimal? {
      assert forall i | 0 <= i < |t| :: IsNumberChar(t[i]);
    }
  }

  /** The value and the optional timestamp, as written after a sample's name and labels. */
  function Tail(value: F64, timestamp: Option<int>): string
  {
    F64Text(value) + TimestampText(timestamp)
  }

  function TailWords(value: F64, timestamp: Option<int>): seq<string>
  {
    [F64Text(value)] + (if timestamp.Some? then [IntToString(timestamp.value)] else [])
  }

  lemma TailFacts(value: F64, timestamp: Option<int>)
    ensures Tail(value, timestamp) != []
    ensures '{' !in Tail(value, timestamp) && '}' !in Tail(value, timestamp) && '\n' !in Tail(value, timestamp)
    ensures !IsWhitespace(Tail(value, timestamp)[0])
    ensures !IsWhitespace(Tail(value, timestamp)[|Tail(value, timestamp)| - 1])
    ensures SplitWhitespace(Tail(value, timestamp)) == TailWords(value, timestamp)
  {
    TailChars(value, timestamp);
    TailSplit(value, timestamp);
  }

  lemma TailChars(value: F64, timestamp: Option<int>)
    ensures Tail(value, timestamp) != []
    ensures '{' !in Tail(value, timestamp) && '}' !in Tail(value, timestamp) && '\n' !in Tail(value, timestamp)
    ensures !IsWhitespace(Tail(value, timestamp)[0])
    ensures !IsWhitespace(Tail(value, timestamp)[|Tail(value, timestamp)| - 1])
  {
    var v := F64Text(value);
    ValueTextFacts(value);
    if timestamp.Some? {
      var t := IntToString(timestamp.value);
      IntToStringFacts(timestamp.value);
      var tail := Tail(value, timestamp);
      assert tail == v + " " + t;
      assert tail[0] == v[0];
      assert tail[|tail| - 1] == t[|t| - 1];
    }
  }

  lemma TailSplit(value: F64, timestamp: Option<int>)
    ensures SplitWhitespace(Tail(value, timestamp)) == TailWords(value, timestamp)
  {
    var v := F64Text(value);
    ValueTextFacts(value);
    assert IsWord(v);
    if timestamp.Some? {
      var t := IntToString(timestamp.value);
      IntToStringFacts(timestamp.value);
      assert Tail(value, timestamp) == v + " " + t;
      assert TailWords(value, timestamp) == [v] + [t];
      SplitWhitespaceCons(v, t);
      SplitWhitespaceWord(t);
    } else {
      assert Tail(value, timestamp) == v;
      assert TailWords(value, timestamp) == [v];
      SplitWhitespaceWord(v);
    }
  }


  /** Value and timestamp read back from the tail, the labels given. */
  lemma FinishSampleOfTail(name: string, labelsText: Option<string>, labels: map<string, string>,
                           value: F64, timestamp: Option<int>)
    requires IsNormal(value)
    requires timestamp.Some? ==> I64Min <= timestamp.value <= I64Max
    requires labelsText.None? ==> labels == map[]
    requires labelsText.Some? ==> ParseLabels(labelsText.value) == Success(labels)
    ensures FinishSample(name, labelsText, Tail(value, timestamp)) == Parsed(MetricSample(name, labels, value, timestamp))
  {
    TailValues(value, timestamp);
  }

  lemma TailValues(value: F64, timestamp: Option<int>)
    requires IsNormal(value)
    requires timestamp.Some? ==> I64Min <= timestamp.value <= I64Max
    ensures var parts := SplitWhitespace(Tail(value, timestamp));
      parts != [] && ParseF64(parts[0]) == Some(value)
      && (if |parts| >= 2 then ParseI64(parts[1]) else None) == timestamp
  {
    TailSplit(value, timestamp);
    ParseF64OfF64Text(value);
    if timestamp.Some? {
      ParseI64OfIntToString(timestamp.value);
    }
  }

  lemma PlainValueFacts(v: string)
    requires IsPlainLabelValue(v)
    ensures ',' !in v && '}' !in v
  {
    forall c | c in v
      ensures c != ',' && c != '}'
    {
      var i :| 0 <= i < |v| && v[i] == c;
    }
  }

  lemma PairShape(k: string, v: string)
    ensures LabelPair(k, v) == k + ['='] + ("\"" + Escaped(v) + "\"")
  {
  }

  lemma {:induction false} EscapedCons(c: char, rest: string)
    ensures Escaped([c] + rest) == EscapeChar(c) + Escaped(rest)
    decreases |rest|
  {
    var s := [c] + rest;
    if rest == [] {
      assert s[..|s| - 1] == [];
    } else {
      var n := |rest| - 1;
      assert s[..|s| - 1] == [c] + rest[..n];
      assert s[|s| - 1] == rest[n];
      EscapedCons(c, rest[..n]);
      assert Escaped(s) == EscapeChar(c) + Escaped(rest[..n]) + EscapeChar(rest[n]);
      assert Escaped(rest) == Escaped(rest[..n]) + EscapeChar(rest[n]);
    }
  }

  /** Escaping adds only backslashes, quotes and `n`s to the characters of the value. */
  lemma {:induction false} EscapedChars(v: string, c: char)
    requires c in Escaped(v)
    ensures c in v || c == '\\' || c == '"' || c == 'n'
    decreases |v|
  {
    if v != [] {
      var init, last := v[..|v| - 1], v[|v| - 1];
      assert v == init + [last];
      if c in Escaped(init) {
        EscapedChars(init, c);
      } else {
        assert c in EscapeChar(last);
      }
    }
  }

  /**
   * The escaped text never starts with a quote, and ends with one only when
   * the value does.
   */
  lemma EscapedEnds(v: string)
    requires v != []
    ensures Escaped(v) != [] && Escaped(v)[0] != '"'
    ensures v[|v| - 1] != '"' ==> Escaped(v)[|Escaped(v)| - 1] != '"'
  {
    EscapedCons(v[0], v[1..]);
    assert v == [v[0]] + v[1..];
    var e := Escaped(v[..|v| - 1]);
    assert Escaped(v) == e + EscapeChar(v[|v| - 1]);
  }

  /** Escaping loses nothing: decoding the escaped text gives the value back. */
  lemma {:induction false} EscapeDecodes(v: string)
    ensures Unescape(Escaped(v)) == v
    decreases |v|
  {
    if v != [] {
      EscapedCons(v[0], v[1..]);
      assert v == [v[0]] + v[1..];
      EscapeDecodes(v[1..]);
      var rest := Escaped(v[1..]);
      var e := EscapeChar(v[0]) + rest;
      if v[0] == '\\' || v[0] == '"' || v[0] == '\n' {
        assert e[2..] == rest;
      } else {
        assert e[1..] == rest;
      }
    }
  }

  /** Trimming the quotes around a text that neither starts nor ends with one leaves the text. */
  lemma TrimQuotes(e: string)
    requires e == [] || (e[0] != '"' && e[|e| - 1] != '"')
    ensures TrimMatches("\"" + e + "\"", '"') == e
  {
    var q := "\"" + e + "\"";
    var t := TrimStartMatches(q, '"');
    assert t == TrimStartMatches(e + "\"", '"') by { QuoteStart(e); }
    if e == [] {
      assert t == [] by {
        assert e + "\"" == "\"" && "\""[1..] == [];
      }
    } else {
      assert t == e + "\"" by {
        assert (e + "\"")[0] == e[0];
      }
      QuoteEnd(e);
    }
    assert TrimMatches(q, '"') == TrimEndMatches(t, '"');
  }

  lemma QuoteStart(e: string)
    ensures var q := "\"" + e + "\""; q != [] && q[0] == '"' && q[1..] == e + "\""
  {
  }

  lemma QuoteEnd(e: string)
    requires e != [] && e[|e| - 1] != '"'
    ensures TrimEndMatches(e + "\"", '"') == e
  {
    var t := e + "\"";
    assert t[..|t| - 1] == e;
    assert TrimEndMatches(t, '"') == TrimEndMatches(e, '"');
  }

  lemma PairFacts(k: string, v: string)
    requires IsName(k) && IsPlainLabelValue(v)
    ensures ',' !in LabelPair(k, v) && '}' !in LabelPair(k, v) && '\n' !in LabelPair(k, v)
    ensures LabelPair(k, v) != []
    ensures Trim(LabelPair(k, v)) == LabelPair(k, v)
    ensures SplitOnce(LabelPair(k, v), '=') == Some((k, "\"" + Escaped(v) + "\""))
  {
    PairShape(k, v);
    PairChars(k, v);
    var p := LabelPair(k, v);
    assert p[0] == k[0] && p[|p| - 1] == '"';
    NameFacts(k);
    TrimUnchanged(p);
    SplitOnceAt(k, '=', "\"" + Escaped(v) + "\"");
  }

  lemma PairChars(k: string, v: string)
    requires IsName(k) && IsPlainLabelValue(v)
    requires LabelPair(k, v) == k + ['='] + ("\"" + Escaped(v) + "\"")
    ensures ',' !in LabelPair(k, v) && '}' !in LabelPair(k, v) && '\n' !in LabelPair(k, v)
  {
    NameFacts(k);
    PlainValueFacts(v);
    if ',' in Escaped(v) { EscapedChars(v, ','); }
    if '}' in Escaped(v) { EscapedChars(v, '}'); }
  }

  /**
   * Reading back a quoted, escaped value gives the value, unless it ends
   * with a double quote.
   */
  lemma UnquoteEscaped(v: string)
    requires v == [] || v[|v| - 1] != '"'
    ensures UnescapeLabelValue("\"" + Escaped(v) + "\"") == v
  {
    var e := Escaped(v);
    assert e == [] || (e[0] != '"' && e[|e| - 1] != '"') by {
      if v != [] {
        EscapedEnds(v);
      }
    }
    UnescapeQuoted(e);
    EscapeDecodes(v);
  }

  lemma UnescapeQuoted(e: string)
    requires e == [] || (e[0] != '"' && e[|e| - 1] != '"')
    ensures UnescapeLabelValue("\"" + e + "\"") == Unescape(e)
  {
    TrimQuotes(e);
  }

  lemma {:induction false} NonEmptyPiecesAll(pieces: seq<string>)
    requires forall i :: 0 <= i < |pieces| ==> pieces[i] != []
    ensures NonEmptyPieces(pieces) == pieces
    decreases |pieces|
  {
    if pieces != [] {
      NonEmptyPiecesAll(pieces[1..]);
    }
  }

  /** `acc` with the entries of `labels` under `keys` written over it. */
  ghost function Overlay(acc: map<string, string>, labels: map<string, string>, keys: seq<string>): map<string, string>
    requires forall k :: k in keys ==> k in labels
  {
    map k | k in acc.Keys + (set x | x in keys) :: if k in keys then labels[k] else acc[k]
  }

  /** Reading the first written pair stores its value under its name. */
  lemma ParsePairsStep(acc: map<string, string>, k: string, v: string, rest: seq<string>)
    requires IsName(k) && IsPlainLabelValue(v)
    ensures ParsePairs(acc, [LabelPair(k, v)] + rest) == ParsePairs(acc[k := v], rest)
  {
    PairFacts(k, v);
    UnquoteEscaped(v);
    NameFacts(k);
    TrimUnchanged(k);
    assert ([LabelPair(k, v)] + rest)[1..] == rest;
  }

  lemma OverlayCons(acc: map<string, string>, labels: map<string, string>, keys: seq<string>)
    requires keys != [] && forall k :: k in keys ==> k in labels
    ensures Overlay(acc[keys[0] := labels[keys[0]]], labels, keys[1..]) == Overlay(acc, labels, keys)
  {
    var k0 := keys[0];
    assert forall x :: x in keys <==> x == k0 || x in keys[1..];
  }

  /** The written pairs fold back into the labels they came from. */
  lemma {:induction false} ParsePairsOfLabelPairs(acc: map<string, string>, labels: map<string, string>, keys: seq<string>)
    requires forall k :: k in keys ==> k in labels && IsName(k) && IsPlainLabelValue(labels[k])
    ensures ParsePairs(acc, LabelPairs(labels, keys)) == Success(Overlay(acc, labels, keys))
    decreases |keys|
  {
    if keys == [] {
      assert Overlay(acc, labels, keys) == acc;
    } else {
      var k := keys[0];
      assert LabelPairs(labels, keys) == [LabelPair(k, labels[k])] + LabelPairs(labels, keys[1..]);
      ParsePairsStep(acc, k, labels[k], LabelPairs(labels, keys[1..]));
      ParsePairsOfLabelPairs(acc[k := labels[k]], labels, keys[1..]);
      OverlayCons(acc, labels, keys);
    }
  }

  lemma OverlayAll(labels: map<string, string>, keys: seq<string>)
    requires IsEnumeration(keys, labels.Keys)
    ensures Overlay(map[], labels, keys) == labels
  {
  }

  lemma {:induction false} JoinAvoids(parts: seq<string>, sep: string, c: char)
    requires c !in sep
    requires forall i :: 0 <= i < |parts| ==> c !in parts[i]
    ensures c !in Join(parts, sep)
    decreases |parts|
  {
    if |parts| > 1 {
      JoinAvoids(parts[1..], sep, c);
    }
  }

  lemma LabelPairsFacts(labels: map<string, string>, keys: seq<string>)
    requires forall k :: k in keys ==> k in labels && IsName(k) && IsPlainLabelValue(labels[k])
    ensures forall i :: 0 <= i < |keys| ==>
      var p := LabelPairs(labels, keys)[i];
      p != [] && ',' !in p && '}' !in p && '\n' !in p
  {
    forall i | 0 <= i < |keys|
      ensures var p := LabelPairs(labels, keys)[i]; p != [] && ',' !in p && '}' !in p && '\n' !in p
    {
      PairFacts(keys[i], labels[keys[i]]);
    }
  }

  /** The label text written for a non-empty label map parses back to that map. */
  lemma LabelsRoundTrip(labels: map<string, string>, keys: seq<string>)
    requires IsEnumeration(keys, labels.Keys) && labels != map[]
    requires forall k :: k in labels ==> IsName(k) && IsPlainLabelValue(labels[k])
    ensures ParseLabels(Join(LabelPairs(labels, keys), ",")) == Success(labels)
  {
    var k0 :| k0 in labels;
    assert k0 in keys;
    var pairs := LabelPairs(labels, keys);
    LabelPairsFacts(labels, keys);
    SplitJoin(pairs, ',');
    NonEmptyPiecesAll(pairs);
    ParsePairsOfLabelPairs(map[], labels, keys);
    OverlayAll(labels, keys);
  }

  /** Where the as-written parser cuts a line with labels. */
  lemma BracedLineCuts(name: string, text: string, tail: string)
    requires '{' !in name && '}' !in name && '}' !in text
    ensures var line := name + ['{'] + text + ['}'] + [' '] + tail;
      IndexOf(line, '{') == Some(|name|) && IndexOf(line, '}') == Some(|name| + 1 + |text|)
      && line[..|name|] == name && line[|name| + 1..|name| + 1 + |text|] == text
      && line[|name| + 1 + |text| + 1..] == [' '] + tail
  {
    var open := name + ['{'];
    var closed := open + text + ['}'];
    var line := closed + [' '] + tail;
    var braceStart, braceEnd := |name|, |name| + 1 + |text|;
    assert line[..braceStart] == name && line[braceStart] == '{';
    assert IndexOf(line, '{') == Some(braceStart) by {
      FirstIndexIs(line, '{', braceStart);
    }
    assert line[..braceEnd] == open + text && line[braceEnd] == '}';
    assert IndexOf(line, '}') == Some(braceEnd) by {
      assert '}' !in open + text;
      FirstIndexIs(line, '}', braceEnd);
    }
    assert line[braceStart + 1..braceEnd] == text;
    assert line[braceEnd + 1..] == [' '] + tail;
  }

  lemma BracedLineParses(name: string, text: string, tail: string)
    requires '{' !in name && '}' !in name && '}' !in text
    ensures CutSampleLine(name + ['{'] + text + ['}'] + [' '] + tail) == Cut(name, Some(text), [' '] + tail)
  {
    BracedLineCuts(name, text, tail);
  }

  /** A cut line whose rest trims to `tail` finishes as `tail` does. */
  lemma OutcomeOfCut(line: string, name: string, labelsText: Option<string>, rest: string, tail: string)
    requires CutSampleLine(line) == Cut(name, labelsText, rest) && Trim(rest) == tail
    ensures ParseMetricSampleAsWritten(line) == FinishSample(name, labelsText, tail)
  {
  }

  /** The written label text has no closing brace and no newline. */
  lemma LabelTextFacts(labels: map<string, string>, keys: seq<string>)
    requires forall k :: k in keys ==> k in labels && IsName(k) && IsPlainLabelValue(labels[k])
    ensures '}' !in Join(LabelPairs(labels, keys), ",") && '\n' !in Join(LabelPairs(labels, keys), ",")
  {
    LabelPairsFacts(labels, keys);
    JoinAvoids(LabelPairs(labels, keys), ",", '}');
    JoinAvoids(LabelPairs(labels, keys), ",", '\n');
  }

  /** Regrouping of the pieces of a braced sample line. */
  lemma BracedRegroup(name: string, text: string, number: string, stamp: string)
    ensures name + ("{" + text + "}") + " " + number + stamp == name + ['{'] + text + ['}'] + [' '] + (number + stamp)
  {
  }

  lemma SampleLineWithLabels(s: MetricSample, keys: seq<string>)
    requires WellFormedSample(s) && IsEnumeration(keys, s.labels.Keys) && s.labels != map[]
    ensures ParseMetricSampleAsWritten(SampleLine(s, keys)) == Parsed(s)
  {
    var text := Join(LabelPairs(s.labels, keys), ",");
    var tail := Tail(s.value, s.timestamp);
    BracedRegroup(s.name, text, F64Text(s.value), TimestampText(s.timestamp));
    NameFacts(s.name);
    TailChars(s.value, s.timestamp);
    LabelTextFacts(s.labels, keys);
    BracedLineParses(s.name, text, tail);
    TrimLeadingSpace(tail);
    OutcomeOfCut(SampleLine(s, keys), s.name, Some(text), [' '] + tail, tail);
    LabelsRoundTrip(s.labels, keys);
    FinishSampleOfTail(s.name, Some(text), s.labels, s.value, s.timestamp);
  }

  /** Without labels the line is the name, a space and the tail, with no opening brace. */
  lemma UnlabelledLine(s: MetricSample, keys: seq<string>)
    requires WellFormedSample(s) && IsEnumeration(keys, s.labels.Keys) && s.labels == map[]
    ensures SampleLine(s, keys) == s.name + [' '] + Tail(s.value, s.timestamp)
    ensures '{' !in SampleLine(s, keys)
  {
    var line := SampleLine(s, keys);
    assert line == s.name + [' '] + Tail(s.value, s.timestamp);
    NameFacts(s.name);
    TailChars(s.value, s.timestamp);
  }

  lemma SampleLineWithoutLabels(s: MetricSample, keys: seq<string>)
    requires WellFormedSample(s) && IsEnumeration(keys, s.labels.Keys) && s.labels == map[]
    ensures ParseMetricSampleAsWritten(SampleLine(s, keys)) == Parsed(s)
  {
    var tail := Tail(s.value, s.timestamp);
    var line := SampleLine(s, keys);
    UnlabelledLine(s, keys);
    SplitOnceAt(s.name, ' ', tail);
    TrimUnchanged(tail);
    OutcomeOfCut(line, s.name, None, tail, tail);
    FinishSampleOfTail(s.name, None, map[], s.value, s.timestamp);
  }

  /** The line written for a well-formed sample parses back to that sample, in any label order. */
  lemma SampleLineRoundTrip(s: MetricSample, keys: seq<string>)
    requires WellFormedSample(s) && IsEnumeration(keys, s.labels.Keys)
    ensures ParseMetricSample(SampleLine(s, keys)) == Success(s)
  {
    if s.labels == map[] {
      SampleLineWithoutLabels(s, keys);
    } else {
      SampleLineWithLabels(s, keys);
    }
  }

  lemma MetadataTrimmed(prefix: string, name: string, text: string)
    requires prefix != [] && prefix[0] == '#'
    requires text != [] && !IsWhitespace(text[|text| - 1])
    ensures Trim(MetadataLine(prefix, name, text)) == MetadataLine(prefix, name, text)
  {
    var line := MetadataLine(prefix, name, text);
    assert line[0] == '#' && line[|line| - 1] == text[|text| - 1];
    TrimUnchanged(line);
  }

  lemma MetadataSplit(prefix: string, name: string, text: string)
    requires ' ' !in name
    ensures ParseMetadataLine(MetadataLine(prefix, name, text), prefix) == Some((name, text))
  {
    var line := MetadataLine(prefix, name, text);
    assert line == prefix + (name + [' '] + text);
    assert line[..|prefix|] == prefix;
    assert line[|prefix|..] == name + [' '] + text;
    SplitOnceAt(name, ' ', text);
  }

  lemma PrefixesPlain()
    ensures '\n' !in HelpPrefix && '\n' !in TypePrefix
  {
  }

  lemma MetadataPlain(prefix: string, name: string, text: string)
    requires '\n' !in prefix && '\n' !in name && IsMetaText(text)
    ensures IsPlainLine(MetadataLine(prefix, name, text))
  {
    var line := MetadataLine(prefix, name, text);
    assert line[|line| - 1] == text[|text| - 1];
  }

  /** A `# HELP` or `# TYPE` line of a name and a text: one plain line, untouched by trimming, split back into both. */
  lemma MetadataLineFacts(prefix: string, name: string, text: string)
    requires prefix == HelpPrefix || prefix == TypePrefix
    requires IsName(name) && IsMetaText(text)
    ensures IsPlainLine(MetadataLine(prefix, name, text))
    ensures Trim(MetadataLine(prefix, name, text)) == MetadataLine(prefix, name, text)
    ensures ParseMetadataLine(MetadataLine(prefix, name, text), prefix) == Some((name, text))
  {
    NameFacts(name);
    PrefixesPlain();
    MetadataTrimmed(prefix, name, text);
    MetadataSplit(prefix, name, text);
    MetadataPlain(prefix, name, text);
  }

  lemma PrefixLetters()
    ensures |HelpPrefix| == 7 && |TypePrefix| == 7
    ensures HelpPrefix[..1] == "#" && TypePrefix[..1] == "#"
    ensures HelpPrefix[0] == '#' && HelpPrefix[2] == 'H' && TypePrefix[2] == 'T'
  {
  }

  /** A trimmed line that starts with `# HELP ` and splits is a help line. */
  lemma ClassifyHelp(t: string, name: string, text: string)
    requires StartsWith(t, HelpPrefix) && ParseMetadataLine(t, HelpPrefix) == Some((name, text))
    ensures ClassifyLine(t) == Help(name, text)
  {
    PrefixLetters();
  }

  /** A trimmed line that starts with `# TYPE ` and splits is a type line. */
  lemma ClassifyType(t: string, name: string, text: string)
    requires StartsWith(t, TypePrefix) && ParseMetadataLine(t, TypePrefix) == Some((name, text))
    ensures ClassifyLine(t) == Type(name, text)
  {
    PrefixLetters();
    assert t[2] == 'T';
    assert !StartsWith(t, HelpPrefix);
  }

  /** A trimmed line that does not start with `#` and parses as a sample is a sample line. */
  lemma ClassifySample(t: string, s: MetricSample)
    requires t != [] && t[0] != '#' && ParseMetricSample(t) == Success(s)
    ensures ClassifyLine(t) == Sample(s)
  {
    PrefixLetters();
    assert !StartsWith(t, "#") && !StartsWith(t, HelpPrefix) && !StartsWith(t, TypePrefix);
  }

  /** A written `# HELP` line is read as the help of `name`. */
  lemma HelpLineClassified(name: string, text: string)
    requires IsName(name) && IsMetaText(text)
    ensures ClassifyLine(Trim(MetadataLine(HelpPrefix, name, text))) == Help(name, text)
  {
    MetadataLineFacts(HelpPrefix, name, text);
    var line := MetadataLine(HelpPrefix, name, text);
    assert line == HelpPrefix + (name + " " + text);
    assert StartsWith(line, HelpPrefix);
    ClassifyHelp(line, name, text);
  }

  /** A written `# TYPE` line is read as the type of `name`. */
  lemma TypeLineClassified(name: string, text: string)
    requires IsName(name) && IsMetaText(text)
    ensures ClassifyLine(Trim(MetadataLine(TypePrefix, name, text))) == Type(name, text)
  {
    MetadataLineFacts(TypePrefix, name, text);
    var line := MetadataLine(TypePrefix, name, text);
    assert line == TypePrefix + (name + " " + text);
    assert StartsWith(line, TypePrefix);
    ClassifyType(line, name, text);
  }

  /** Regrouping of a sample line into what precedes the value and the value with its timestamp. */
  lemma TailRegroup(name: string, labelsText: string, number: string, stamp: string)
    ensures name + labelsText + " " + number + stamp == (name + labelsText + " ") + (number + stamp)
  {
  }

  /** A written sample line is one plain line, untouched by trimming, starting with the sample's name. */
  lemma SampleLineFacts(s: MetricSample, keys: seq<string>)
    requires WellFormedSample(s) && IsEnumeration(keys, s.labels.Keys)
    ensures IsPlainLine(SampleLine(s, keys))
    ensures Trim(SampleLine(s, keys)) == SampleLine(s, keys)
    ensures SampleLine(s, keys)[0] == s.name[0]
  {
    var line := SampleLine(s, keys);
    var head := s.name + LabelsText(s.labels, keys) + " ";
    var tail := Tail(s.value, s.timestamp);
    TailRegroup(s.name, LabelsText(s.labels, keys), F64Text(s.value), TimestampText(s.timestamp));
    assert line == head + tail;
    NameFacts(s.name);
    TailChars(s.value, s.timestamp);
    LabelTextFacts(s.labels, keys);
    assert '\n' !in LabelsText(s.labels, keys);
    assert line[0] == s.name[0];
    assert line[|line| - 1] == tail[|tail| - 1];
    TrimUnchanged(line);
  }

  /** A written sample line of a well-formed sample is read as that sample. */
  lemma SampleLineClassified(s: MetricSample, keys: seq<string>)
    requires WellFormedSample(s) && IsEnumeration(keys, s.labels.Keys)
    ensures ClassifyLine(Trim(SampleLine(s, keys))) == Sample(s)
  {
    SampleLineFacts(s, keys);
    SampleLineRoundTrip(s, keys);
    NameFacts(s.name);
    ClassifySample(SampleLine(s, keys), s);
  }

  /** Parsing a concatenation of lines parses the first part, then the second. */
  lemma {:induction false} ParseLinesAppend(acc: PrometheusMetrics, a: seq<string>, b: seq<string>)
    ensures ParseLines(acc, a + b) == ParseLines(ParseLines(acc, a), b)
    decreases |a|
  {
    if a == [] {
      assert a + b == b;
    } else {
      assert (a + b)[1..] == a[1..] + b;
      ParseLinesAppend(ProcessLine(acc, a[0]), a[1..], b);
    }
  }

  lemma ParseLinesOne(acc: PrometheusMetrics, line: string)
    ensures ParseLines(acc, [line]) == ProcessLine(acc, line)
  {
    assert [line][1..] == [];
  }

  /** `samples` appended to the family stored under `key`, which is created when missing. */
  ghost function AddSamples(acc: PrometheusMetrics, key: string, samples: seq<MetricSample>): PrometheusMetrics
  {
    if samples == [] then acc
    else
      var m := GetOrCreateMetric(acc, key);
      acc[key := m.(samples := m.samples + samples)]
  }

  lemma AddSamplesStep(acc: PrometheusMetrics, key: string, samples: seq<MetricSample>, s: MetricSample)
    ensures var m := GetOrCreateMetric(AddSamples(acc, key, samples), key);
      AddSamples(acc, key, samples)[key := m.(samples := m.samples + [s])] == AddSamples(acc, key, samples + [s])
  {
    var m := GetOrCreateMetric(acc, key);
    if samples == [] {
      assert samples + [s] == [s];
    } else {
      var grown := AddSamples(acc, key, samples);
      assert grown[key] == m.(samples := m.samples + samples);
      assert GetOrCreateMetric(grown, key) == grown[key];
      assert m.samples + samples + [s] == m.samples + (samples + [s]);
    }
  }

  /** Every sample written belongs to the family `key`: parsing the sample lines appends them there in order. */
  /** Parsing a formatted sample line applies that sample. */
  lemma SampleLineApplied(m: PrometheusMetrics, s: MetricSample, keys: seq<string>)
    requires WellFormedSample(s) && IsEnumeration(keys, s.labels.Keys)
    ensures ParseLines(m, [SampleLine(s, keys)]) == ApplyLine(m, Sample(s))
  {
    ParseLinesOne(m, SampleLine(s, keys));
    SampleLineClassified(s, keys);
  }

  /** Applying a sample of family `key` appends it to that family. */
  lemma SampleAppended(acc: PrometheusMetrics, key: string, init: seq<MetricSample>, s: MetricSample)
    requires ExtractBaseMetricName(s.name) == key
    ensures ApplyLine(AddSamples(acc, key, init), Sample(s)) == AddSamples(acc, key, init + [s])
  {
    AddSamplesStep(acc, key, init, s);
  }

  lemma {:induction false} SampleLinesFold(acc: PrometheusMetrics, key: string, samples: seq<MetricSample>,
                                           orders: seq<seq<string>>)
    requires OrdersFit(samples, orders)
    requires forall j :: 0 <= j < |samples| ==>
      WellFormedSample(samples[j]) && ExtractBaseMetricName(samples[j].name) == key
    ensures ParseLines(acc, SampleLines(samples, orders)) == AddSamples(acc, key, samples)
    decreases |samples|
  {
    if samples != [] {
      var n := |samples| - 1;
      var init, initOrders := samples[..n], orders[..n];
      var line := SampleLine(samples[n], orders[n]);
      assert OrdersFit(init, initOrders);
      var lines := SampleLines(init, initOrders);
      SampleLinesFold(acc, key, init, initOrders);
      assert SampleLines(samples, orders) == lines + [line];
      ParseLinesAppend(acc, lines, [line]);
      SampleLineApplied(AddSamples(acc, key, init), samples[n], orders[n]);
      SampleAppended(acc, key, init, samples[n]);
      InitLast(samples);
    }
  }

  /** A family the parser rebuilds from its own lines, stored under `key`. */
  ghost predicate WellFormedFamily(key: string, m: PrometheusMetric)
  {
    m.name == key && IsName(key) && ExtractBaseMetricName(key) == key
    && (m.help.Some? ==> IsMetaText(m.help.value))
    && (m.metricType.Some? ==> IsMetaText(m.metricType.value))
    && (m.help.Some? || m.metricType.Some? || m.samples != [])
    && forall j :: 0 <= j < |m.samples| ==>
      WellFormedSample(m.samples[j]) && ExtractBaseMetricName(m.samples[j].name) == key
  }

  ghost predicate WellFormedMetrics(metrics: PrometheusMetrics)
  {
    forall k :: k in metrics ==> WellFormedFamily(k, metrics[k])
  }

  /** Parsing a written `# HELP` line sets the help of the family of that name. */
  lemma HelpLineStep(acc: PrometheusMetrics, name: string, text: string)
    requires IsName(name) && IsMetaText(text) && ExtractBaseMetricName(name) == name
    ensures ParseLines(acc, [MetadataLine(HelpPrefix, name, text)])
      == acc[name := GetOrCreateMetric(acc, name).(help := Some(text))]
  {
    ParseLinesOne(acc, MetadataLine(HelpPrefix, name, text));
    HelpLineClassified(name, text);
  }

  /** Parsing a written `# TYPE` line sets the type of the family of that name. */
  lemma TypeLineStep(acc: PrometheusMetrics, name: string, text: string)
    requires IsName(name) && IsMetaText(text) && ExtractBaseMetricName(name) == name
    ensures ParseLines(acc, [MetadataLine(TypePrefix, name, text)])
      == acc[name := GetOrCreateMetric(acc, name).(metricType := Some(text))]
  {
    ParseLinesOne(acc, MetadataLine(TypePrefix, name, text));
    TypeLineClassified(name, text);
  }

  /** The header lines of a new family create it with its help and type and no samples. */
  lemma HeaderFold(acc: PrometheusMetrics, m: PrometheusMetric)
    requires m.name !in acc && IsName(m.name) && ExtractBaseMetricName(m.name) == m.name
    requires m.help.Some? ==> IsMetaText(m.help.value)
    requires m.metricType.Some? ==> IsMetaText(m.metricType.value)
    ensures ParseLines(acc, HeaderLines(m)) ==
      if m.help.Some? || m.metricType.Some? then acc[m.name := PrometheusMetric(m.name, m.metricType, m.help, [])]
      else acc
  {
    var help := if m.help.Some? then [MetadataLine(HelpPrefix, m.name, m.help.value)] else [];
    var kind := if m.metricType.Some? then [MetadataLine(TypePrefix, m.name, m.metricType.value)] else [];
    assert HeaderLines(m) == help + kind;
    ParseLinesAppend(acc, help, kind);
    var mid := ParseLines(acc, help);
    if m.help.Some? {
      HelpLineStep(acc, m.name, m.help.value);
      assert mid == acc[m.name := PrometheusMetric(m.name, None, m.help, [])];
    } else {
      assert mid == acc;
    }
    if m.metricType.Some? {
      TypeLineStep(mid, m.name, m.metricType.value);
      assert GetOrCreateMetric(mid, m.name) == PrometheusMetric(m.name, None, m.help, []);
    } else {
      assert ParseLines(mid, kind) == mid;
    }
  }

  /** A new family's header entry with its samples appended is the family itself. */
  lemma FamilyAssembled(acc: PrometheusMetrics, m: PrometheusMetric, mid: PrometheusMetrics)
    requires m.name !in acc
    requires m.help.Some? || m.metricType.Some? || m.samples != []
    requires mid == if m.help.Some? || m.metricType.Some? then acc[m.name := PrometheusMetric(m.name, m.metricType, m.help, [])]
      else acc
    ensures AddSamples(mid, m.name, m.samples) == acc[m.name := m]
  {
    var empty := PrometheusMetric(m.name, m.metricType, m.help, []);
    if m.samples != [] {
      assert GetOrCreateMetric(mid, m.name) == empty;
      assert [] + m.samples == m.samples;
    }
  }

  /** The lines of a well-formed family rebuild exactly that family. */
  lemma FamilyFold(acc: PrometheusMetrics, m: PrometheusMetric, orders: seq<seq<string>>)
    requires WellFormedFamily(m.name, m) && m.name !in acc && OrdersFit(m.samples, orders)
    ensures ParseLines(acc, MetricLines(m, orders)) == acc[m.name := m]
  {
    ParseLinesAppend(acc, HeaderLines(m), SampleLines(m.samples, orders));
    HeaderFold(acc, m);
    var mid := ParseLines(acc, HeaderLines(m));
    SampleLinesFold(mid, m.name, m.samples, orders);
    FamilyAssembled(acc, m, mid);
  }

  /** The families of `metrics` whose keys are listed in `keys`. */
  ghost function Restrict(metrics: PrometheusMetrics, keys: seq<string>): PrometheusMetrics
  {
    map k | k in metrics && k in keys :: metrics[k]
  }

  lemma RestrictExtend(metrics: PrometheusMetrics, keys: seq<string>, k: string)
    requires k in metrics && k !in keys
    ensures k !in Restrict(metrics, keys)
    ensures Restrict(metrics, keys)[k := metrics[k]] == Restrict(metrics, keys + [k])
  {
    assert forall x :: x in keys + [k] <==> x in keys || x == k;
  }

  /** The lines written for the families of a layout rebuild exactly those families. */
  lemma {:induction false} ExpositionFold(metrics: PrometheusMetrics, layout: seq<FamilyLayout>)
    requires WellFormedMetrics(metrics) && LayoutFits(metrics, layout) && NoDuplicates(LayoutKeys(layout))
    ensures ParseLines(map[], ExpositionLines(metrics, layout)) == Restrict(metrics, LayoutKeys(layout))
    decreases |layout|
  {
    if layout == [] {
      assert Restrict(metrics, []) == map[];
    } else {
      var n := |layout| - 1;
      var init, last := layout[..n], layout[n];
      assert LayoutFits(metrics, init);
      assert LayoutKeys(layout) == LayoutKeys(init) + [last.key];
      NoDuplicatesInit(LayoutKeys(init), last.key);
      ExpositionFold(metrics, init);
      ParseLinesAppend(map[], ExpositionLines(metrics, init), MetricLines(metrics[last.key], last.labelOrders));
      RestrictExtend(metrics, LayoutKeys(init), last.key);
      FamilyFold(Restrict(metrics, LayoutKeys(init)), metrics[last.key], last.labelOrders);
    }
  }

  predicate AllPlain(lines: seq<string>)
  {
    forall i :: 0 <= i < |lines| ==> IsPlainLine(lines[i])
  }

  lemma AllPlainAppend(a: seq<string>, b: seq<string>)
    requires AllPlain(a) && AllPlain(b)
    ensures AllPlain(a + b)
  {
  }

  lemma {:induction false} SampleLinesPlain(samples: seq<MetricSample>, orders: seq<seq<string>>)
    requires OrdersFit(samples, orders) && forall j :: 0 <= j < |samples| ==> WellFormedSample(samples[j])
    ensures AllPlain(SampleLines(samples, orders))
    decreases |samples|
  {
    if samples != [] {
      var n := |samples| - 1;
      assert OrdersFit(samples[..n], orders[..n]);
      SampleLinesPlain(samples[..n], orders[..n]);
      SampleLineFacts(samples[n], orders[n]);
      AllPlainAppend(SampleLines(samples[..n], orders[..n]), [SampleLine(samples[n], orders[n])]);
    }
  }

  lemma HeaderLinesPlain(m: PrometheusMetric)
    requires IsName(m.name)
    requires m.help.Some? ==> IsMetaText(m.help.value)
    requires m.metricType.Some? ==> IsMetaText(m.metricType.value)
    ensures AllPlain(HeaderLines(m))
  {
    var help := if m.help.Some? then [MetadataLine(HelpPrefix, m.name, m.help.value)] else [];
    var kind := if m.metricType.Some? then [MetadataLine(TypePrefix, m.name, m.metricType.value)] else [];
    PrefixesPlain();
    NameFacts(m.name);
    if m.help.Some? {
      MetadataPlain(HelpPrefix, m.name, m.help.value);
    }
    if m.metricType.Some? {
      MetadataPlain(TypePrefix, m.name, m.metricType.value);
    }
    AllPlainAppend(help, kind);
  }

  lemma MetricLinesPlain(m: PrometheusMetric, orders: seq<seq<string>>)
    requires WellFormedFamily(m.name, m) && OrdersFit(m.samples, orders)
    ensures AllPlain(MetricLines(m, orders))
  {
    HeaderLinesPlain(m);
    SampleLinesPlain(m.samples, orders);
    AllPlainAppend(HeaderLines(m), SampleLines(m.samples, orders));
  }

  lemma {:induction false} ExpositionLinesPlain(metrics: PrometheusMetrics, layout: seq<FamilyLayout>)
    requires WellFormedMetrics(metrics) && LayoutFits(metrics, layout)
    ensures AllPlain(ExpositionLines(metrics, layout))
    decreases |layout|
  {
    if layout != [] {
      var n := |layout| - 1;
      var last := layout[n];
      assert LayoutFits(metrics, layout[..n]);
      ExpositionLinesPlain(metrics, layout[..n]);
      MetricLinesPlain(metrics[last.key], last.labelOrders);
      AllPlainAppend(ExpositionLines(metrics, layout[..n]), MetricLines(metrics[last.key], last.labelOrders));
    }
  }

  /**
   * Writing well-formed families and parsing the text back gives the same
   * families, whatever order the writer chose for families and labels.
   */
  lemma ExpositionRoundTrip(metrics: PrometheusMetrics, layout: seq<FamilyLayout>)
    requires WellFormedMetrics(metrics) && IsLayout(metrics, layout)
    ensures ParseLines(map[], Lines(JoinLines(ExpositionLines(metrics, layout)))) == metrics
  {
    ExpositionLinesPlain(metrics, layout);
    LinesOfJoinLines(ExpositionLines(metrics, layout));
    ExpositionFold(metrics, layout);
    assert Restrict(metrics, LayoutKeys(layout)) == metrics;
  }

  /** Formats the families and parses the output, as the round-trip test does. */
  method RoundTrip(metrics: PrometheusMetrics) returns (r: Result<PrometheusMetrics, string>)
    requires WellFormedMetrics(metrics)
    ensures r == Success(metrics)
  {
    var output, layout := ToPrometheusFormat(metrics);
    ExpositionRoundTrip(metrics, layout);
    r := Parse(output);
  }

  /** A line whose first `}` comes before its first `{`: the source's slice has reversed bounds and panics. */
  lemma ClosingBraceFirstPanics()
    ensures ParseMetricSampleAsWritten("a}{ 1") == Panics
  {
    var line := "a}{ 1";
    assert line[..2] == ['a', '}'];
    FirstIndexIs(line, '{', 2);
    assert line[..1] == ['a'];
    FirstIndexIs(line, '}', 1);
  }

  /** The source panics on exactly the lines holding both braces with the first `}` before the first `{`. */
  lemma PanicsExactly(line: string)
    ensures ParseMetricSampleAsWritten(line) == Panics <==>
      IndexOf(line, '{').Some? && IndexOf(line, '}').Some? && IndexOf(line, '}').value < IndexOf(line, '{').value
  {
  }

  /** The corrected parser rejects those lines with a reason instead, and agrees with the source on all others. */
  lemma CorrectedParse(line: string)
    ensures ParseMetricSampleAsWritten(line) == Panics ==>
      ParseMetricSample(line) == Failure("Closing brace before opening brace")
    ensures ParseMetricSampleAsWritten(line).Parsed? <==> ParseMetricSample(line).Success?
    ensures ParseMetricSample(line).Success? ==> ParseMetricSample(line).value == ParseMetricSampleAsWritten(line).sample
    ensures ParseMetricSampleAsWritten(line).Rejected? ==>
      ParseMetricSample(line) == Failure(ParseMetricSampleAsWritten(line).reason)
  {
  }

  lemma EscapeBackslashN()
    ensures Escaped("\\n") == "\\\\n"
  {
    var v := "\\n";
    assert v[..1] == "\\";
    assert Escaped(v[..1]) == Escaped([]) + EscapeChar('\\');
  }

  lemma UnquoteBackslashes()
    ensures TrimMatches("\"\\\\n\"", '"') == "\\\\n"
  {
    var inner := "\\\\n";
    var q := "\"\\\\n\"";
    assert q[1..] == inner + "\"";
    assert TrimStartMatches(q, '"') == inner + "\"";
    assert (inner + "\"")[..3] == inner;
  }

  /** The four replacements applied to two backslashes and `n`. */
  lemma ReplaceBackslashes()
    ensures Replace(Replace(Replace(Replace("\\\\n", "\\\"", "\""), "\\n", "\n"), "\\t", "\t"), "\\\\", "\\") == "\\\n"
  {
    var inner := "\\\\n";
    assert inner[1..] == "\\n" && inner[1..][1..] == "n";
    // `\"` does not occur
    assert Replace("n", "\\\"", "\"") == "n";
    assert "\\n"[..2][1] == 'n' != "\\\""[1];
    assert "\\n"[1..] == "n";
    assert Replace("\\n", "\\\"", "\"") == "\\n";
    assert inner[..2][1] == '\\' != "\\\""[1];
    assert inner[..2][1] != "\\n"[1];
    // the second backslash and the `n` are taken for an escaped newline
    assert Replace("\\n"[2..], "\\n", "\n") == [];
    assert Replace("\\n", "\\n", "\n") == "\n";
    var read := "\\\n";
    assert read[1..] == "\n";
    assert read[..2][1] == '\n' != "\\t"[1];
    assert read[..2][1] != "\\\\"[1];
    assert Replace(read[1..], "\\t", "\t") == read[1..];
    assert Replace(read[1..], "\\\\", "\\") == read[1..];
  }

  /**
   * The unescaping is not the inverse of the escaping: a label value made of
   * a backslash and `n` is written as two backslashes and `n`, and read back
   * as a backslash and a newline.
   */
  lemma EscapeUnescapeMismatch()
    ensures var v := "\\n"; UnescapeLabelValueAsWritten("\"" + Escaped(v) + "\"") == "\\\n" != v
  {
    EscapeBackslashN();
    assert "\"" + "\\\\n" + "\"" == "\"\\\\n\"";
    UnquoteBackslashes();
    ReplaceBackslashes();
  }
}
