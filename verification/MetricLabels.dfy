/** The label part of a scraped metric line: a small state machine over quotes, commas and escapes. */
module MetricLabels {
  import opened Wrappers

  type Labels = map<string, string>

  /** Characters with the Unicode White_Space property. */
  predicate IsSpace(c: char) {
    var n := c as int;
    9 <= n <= 13 || n == 0x20 || n == 0x85 || n == 0xA0 || n == 0x1680 || 0x2000 <= n <= 0x200A
    || n == 0x2028 || n == 0x2029 || n == 0x202F || n == 0x205F || n == 0x3000
  }

  function Trim(s: string): string {
    if s != "" && IsSpace(s[0]) then Trim(s[1..])
    else if s != "" && IsSpace(s[|s| - 1]) then Trim(s[..|s| - 1])
    else s
  }

  datatype State = State(labels: Labels, key: string, value: string, inValue: bool, inQuotes: bool)

  const START := State(map[], "", "", false, false)

  /** The machine run from `st` over `s`: the labels and what follows the closing brace. */
  function Parse(st: State, s: string): Option<(Labels, string)>
    decreases |s|
  {
    if s == "" then None
    else
      var ch, rest := s[0], s[1..];
      if ch == '\\' && st.inQuotes then
        if rest == "" then None
        else Parse(st.(value := st.value + [if rest[0] == 'n' then '\n' else rest[0]]), rest[1..])
      else if ch == '}' && !st.inQuotes then
        Some((if st.inValue && st.key != "" then st.labels[Trim(st.key) := Trim(st.value)] else st.labels, rest))
      else if ch == '=' && !st.inValue then Parse(st.(inValue := true), rest)
      else if ch == '"' && st.inValue then
        if st.inQuotes
        then Parse(State(st.labels[Trim(st.key) := st.value], "", "", false, false), rest)
        else Parse(st.(inQuotes := true), rest)
      else if ch == ',' && !st.inQuotes then
        if st.inValue
        then Parse(State(st.labels[Trim(st.key) := Trim(st.value)], "", "", false, false), rest)
        else Parse(st, rest)
      else if st.inValue then Parse(st.(value := st.value + [ch]), rest)
      else Parse(st.(key := st.key + [ch]), rest)
  }

  method ParseLabels(s: string) returns (r: Option<(Labels, string)>)
    ensures r == Parse(START, s)
  {
    var labels: Labels := map[];
    var key, value := "", "";
    var inValue, inQuotes := false, false;
    var i := 0;
    while i < |s|
      invariant i <= |s|
      invariant Parse(START, s) == Parse(State(labels, key, value, inValue, inQuotes), s[i..])
      decreases |s| - i
    {
      var ch := s[i];
      assert s[i..][1..] == s[i + 1..];
      i := i + 1;
      if ch == '\\' && inQuotes {
        if i == |s| {
          return None;
        }
        assert s[i..][1..] == s[i + 1..];
        value := value + [if s[i] == 'n' then '\n' else s[i]];
        i := i + 1;
      } else if ch == '}' && !inQuotes {
        if inValue && key != "" {
          labels := labels[Trim(key) := Trim(value)];
        }
        return Some((labels, s[i..]));
      } else if ch == '=' && !inValue {
        inValue := true;
      } else if ch == '"' && inValue {
        inQuotes := !inQuotes;
        if !inQuotes {
          labels := labels[Trim(key) := value];
          key, value, inValue := "", "", false;
        }
      } else if ch == ',' && !inQuotes {
        if inValue {
          labels := labels[Trim(key) := Trim(value)];
          key, value, inValue := "", "", false;
        }
      } else if inValue {
        value := value + [ch];
      } else {
        key := key + [ch];
      }
    }
    return None;
  }

  // ------------------------------------------------------------- the format

  /** Text format 0.0.4: a label name is a letter or underscore, then letters, digits and underscores. */
  predicate IsIdentifier(k: string) {
    k != "" && !('0' <= k[0] <= '9') && forall c :: c in k ==>
      'a' <= c <= 'z' || 'A' <= c <= 'Z' || '0' <= c <= '9' || c == '_'
  }

  /** Backslash, double quote and line feed are escaped in label values. */
  function Escaped(v: string): string {
    if v == "" then ""
    else
      (if v[0] == '\\' then "\\\\" else if v[0] == '"' then "\\\"" else if v[0] == '\n' then "\\n" else [v[0]]) +
      Escaped(v[1..])
  }

  datatype Pair = Pair(key: string, value: string)

  function PrintPair(p: Pair): string {
    p.key + "=\"" + Escaped(p.value) + "\""
  }

  function PrintPairs(ps: seq<Pair>): string {
    if ps == [] then ""
    else PrintPair(ps[0]) + (if |ps| == 1 then "" else "," + PrintPairs(ps[1..]))
  }

  /** What closes a label set, and the rest of the line. */
  function End(trailingComma: bool, suffix: string): (r: string)
    ensures r != "" && (r[0] == ',' || r[0] == '}')
  {
    (if trailingComma then "," else "") + ("}" + suffix)
  }

  function ToMap(labels: Labels, ps: seq<Pair>): Labels
    decreases |ps|
  {
    if ps == [] then labels else ToMap(labels[ps[0].key := ps[0].value], ps[1..])
  }

  lemma IdentifierKeeps(k: string)
    requires IsIdentifier(k)
    ensures Trim(k) == k
  {
    assert k[0] in k && k[|k| - 1] in k;
  }

  /** Inside quotes an escaped value is read back as it was. */
  lemma {:induction false} ReadsValue(st: State, v: string, rest: string)
    requires st.inValue && st.inQuotes
    ensures Parse(st, Escaped(v) + "\"" + rest)
      == Parse(State(st.labels[Trim(st.key) := st.value + v], "", "", false, false), rest)
    decreases |v|
  {
    var s := Escaped(v) + "\"" + rest;
    if v == "" {
      assert s == "\"" + rest && s[1..] == rest;
      assert st.value + v == st.value;
    } else {
      var tail := Escaped(v[1..]) + "\"" + rest;
      var next := st.(value := st.value + [v[0]]);
      if v[0] == '\\' || v[0] == '"' || v[0] == '\n' {
        assert s[1..][1..] == tail;
      } else {
        assert s[1..] == tail;
      }
      assert Parse(st, s) == Parse(next, tail);
      ReadsValue(next, v[1..], rest);
      assert next.value + v[1..] == st.value + v;
    }
  }

  lemma {:induction false} ReadsKey(st: State, k: string, rest: string)
    requires !st.inValue && !st.inQuotes
    requires forall c :: c in k ==> c != '}' && c != '=' && c != ','
    ensures Parse(st, k + rest) == Parse(st.(key := st.key + k), rest)
    decreases |k|
  {
    if k == "" {
      assert k + rest == rest && st.key + k == st.key;
    } else {
      var s := k + rest;
      assert s[1..] == k[1..] + rest && k[0] in k;
      forall c | c in k[1..] ensures c in k {
      }
      ReadsKey(st.(key := st.key + [k[0]]), k[1..], rest);
      assert st.key + [k[0]] + k[1..] == st.key + k;
    }
  }

  lemma ReadsPair(labels: Labels, p: Pair, rest: string)
    requires IsIdentifier(p.key)
    ensures var st := State(labels, "", "", false, false);
      Parse(st, PrintPair(p) + rest) == Parse(st.(labels := labels[p.key := p.value]), rest)
  {
    var st := State(labels, "", "", false, false);
    var quoted := Escaped(p.value) + "\"" + rest;
    var a := "=" + ("\"" + quoted);
    assert PrintPair(p) + rest == p.key + a;
    ReadsKey(st, p.key, a);
    IdentifierKeeps(p.key);
    assert "" + p.key == p.key && "" + p.value == p.value;
    var b := State(labels, p.key, "", true, false);
    assert a[1..] == "\"" + quoted && ("\"" + quoted)[1..] == quoted;
    assert Parse(b.(inValue := false), a) == Parse(b, "\"" + quoted);
    assert Parse(b, "\"" + quoted) == Parse(b.(inQuotes := true), quoted);
    ReadsValue(b.(inQuotes := true), p.value, rest);
  }

  /** A comma between pairs is skipped. */
  lemma SkipsComma(labels: Labels, rest: string)
    ensures var st := State(labels, "", "", false, false); Parse(st, "," + rest) == Parse(st, rest)
  {
    assert ("," + rest)[1..] == rest;
  }

  /** Parsing what was printed, with or without a trailing comma, gives back the map and the suffix. */
  lemma {:induction false} LabelsRoundTrip(labels: Labels, ps: seq<Pair>, trailingComma: bool, suffix: string)
    requires forall p :: p in ps ==> IsIdentifier(p.key)
    ensures Parse(State(labels, "", "", false, false), PrintPairs(ps) + End(trailingComma, suffix))
      == Some((ToMap(labels, ps), suffix))
    decreases |ps|
  {
    hide Parse, Escaped, PrintPair, End;
    var end := End(trailingComma, suffix);
    var whole := PrintPairs(ps) + end;
    if ps == [] {
      assert whole == end;
      ReadsEnd(labels, trailingComma, suffix);
    } else {
      var p, more := ps[0], ps[1..];
      assert p in ps && forall q :: q in more ==> q in ps;
      var next := labels[p.key := p.value];
      LabelsRoundTrip(next, more, trailingComma, suffix);
      if more == [] {
        assert whole == PrintPair(p) + end;
        ReadsPair(labels, p, end);
        assert PrintPairs(more) + end == end;
      } else {
        var tail := PrintPairs(more) + end;
        assert whole == PrintPair(p) + ("," + tail);
        ReadsPair(labels, p, "," + tail);
        SkipsComma(next, tail);
      }
    }
  }

  lemma ReadsEnd(labels: Labels, trailingComma: bool, suffix: string)
    ensures Parse(State(labels, "", "", false, false), End(trailingComma, suffix)) == Some((labels, suffix))
  {
    var brace := "}" + suffix;
    assert brace[1..] == suffix;
    if trailingComma {
      SkipsComma(labels, brace);
    } else {
      assert "" + brace == brace;
    }
  }

  /** Distinct keys are all there, each with its own value. */
  lemma {:induction false} ToMapHolds(labels: Labels, ps: seq<Pair>)
    requires forall i, j :: 0 <= i < j < |ps| ==> ps[i].key != ps[j].key
    ensures forall p :: p in ps ==> p.key in ToMap(labels, ps) && ToMap(labels, ps)[p.key] == p.value
    ensures forall k :: (forall p :: p in ps ==> p.key != k) ==>
      (k in ToMap(labels, ps) <==> k in labels) && (k in labels ==> ToMap(labels, ps)[k] == labels[k])
    decreases |ps|
  {
    if ps != [] {
      var more := ps[1..];
      assert ps == [ps[0]] + more;
      ToMapHolds(labels[ps[0].key := ps[0].value], more);
      forall p | p in more ensures p.key != ps[0].key {
        var j :| 0 <= j < |more| && more[j] == p;
        assert ps[j + 1] == p;
      }
    }
  }

  /** The printed label set of any map with identifier keys, in any order, parses to that map and the suffix. */
  lemma MapRoundTrip(m: Labels, ps: seq<Pair>, trailingComma: bool, suffix: string)
    requires forall k :: k in m ==> IsIdentifier(k)
    requires forall i, j :: 0 <= i < j < |ps| ==> ps[i].key != ps[j].key
    requires forall p :: p in ps ==> p.key in m && m[p.key] == p.value
    requires forall k :: k in m ==> Pair(k, m[k]) in ps
    ensures Parse(START, PrintPairs(ps) + End(trailingComma, suffix)) == Some((m, suffix))
  {
    LabelsRoundTrip(map[], ps, trailingComma, suffix);
    ToMapIs(m, ps);
  }

  lemma ToMapIs(m: Labels, ps: seq<Pair>)
    requires forall i, j :: 0 <= i < j < |ps| ==> ps[i].key != ps[j].key
    requires forall p :: p in ps ==> p.key in m && m[p.key] == p.value
    requires forall k :: k in m ==> Pair(k, m[k]) in ps
    ensures ToMap(map[], ps) == m
  {
    ToMapHolds(map[], ps);
    hide ToMap;
    SameLabels(m, ToMap(map[], ps), ps);
  }

  lemma SameLabels(m: Labels, r: Labels, ps: seq<Pair>)
    requires forall p :: p in ps ==> p.key in m && m[p.key] == p.value && p.key in r && r[p.key] == p.value
    requires forall k :: k in m ==> Pair(k, m[k]) in ps
    requires forall k :: (forall p :: p in ps ==> p.key != k) ==> k !in r
    ensures r == m
  {
    forall k ensures k in m ==> k in r && r[k] == m[k] {
      if k in m {
        assert Pair(k, m[k]) in ps;
      }
    }
    forall k ensures k in r ==> k in m {
    }
  }

  // ---------------------------------------------------------- other spellings

  predicate IsBlank(s: string) {
    forall c :: c in s ==> IsSpace(c)
  }

  /** A pair as some exporters write it: spaces around the name, or a value without quotes. */
  datatype Written = Written(before: string, key: string, after: string, value: string, bare: bool)
  {
    predicate Valid() {
      && IsBlank(before) && IsIdentifier(key) && IsBlank(after)
      && (bare ==> forall c :: c in value ==> c != '}' && c != ',' && c != '"')
    }

    function Text(): string {
      before + key + after + "=" + if bare then value else "\"" + Escaped(value) + "\""
    }

    /** A bare value is trimmed; a quoted one is kept as it is. */
    function Meant(): string { if bare then Trim(value) else value }
  }

  lemma {:induction false} TrimPads(before: string, k: string, after: string)
    requires IsBlank(before) && IsIdentifier(k) && IsBlank(after)
    ensures Trim(before + k + after) == k
    decreases |before| + |after|
  {
    var s := before + k + after;
    if before != "" {
      assert s[0] == before[0] && before[0] in before;
      assert s[1..] == before[1..] + k + after;
      TrimPads(before[1..], k, after);
    } else if after != "" {
      var n := |after| - 1;
      assert k[0] in k && s[0] == k[0];
      assert s[|s| - 1] == after[n] && after[n] in after;
      assert s[..|s| - 1] == before + k + after[..n];
      TrimPads(before, k, after[..n]);
    } else {
      assert s == k;
      IdentifierKeeps(k);
    }
  }

  /** Reading a name with its spaces and the equals sign. */
  lemma ReadsName(labels: Labels, w: Written, rest: string)
    requires w.Valid()
    ensures var st := State(labels, "", "", false, false);
      Parse(st, w.before + w.key + w.after + "=" + rest) ==
      Parse(State(labels, w.before + w.key + w.after, "", true, false), rest)
  {
    var st := State(labels, "", "", false, false);
    var name := w.before + w.key + w.after;
    ReadsKey(st, name, "=" + rest);
    assert name + "=" + rest == name + ("=" + rest);
    assert "" + name == name && ("=" + rest)[1..] == rest;
  }

  lemma {:induction false} ReadsBare(st: State, v: string, rest: string)
    requires st.inValue && !st.inQuotes && forall c :: c in v ==> c != '}' && c != ',' && c != '"'
    ensures Parse(st, v + rest) == Parse(st.(value := st.value + v), rest)
    decreases |v|
  {
    if v == "" {
      assert v + rest == rest && st.value + v == st.value;
    } else {
      var s := v + rest;
      assert s[1..] == v[1..] + rest && v[0] in v;
      forall c | c in v[1..] ensures c in v {
      }
      ReadsBare(st.(value := st.value + [v[0]]), v[1..], rest);
      assert st.value + [v[0]] + v[1..] == st.value + v;
    }
  }

  /** However a pair is written, it is read with its trimmed name, up to the comma or brace behind it. */
  lemma ReadsWritten(labels: Labels, w: Written, rest: string)
    requires w.Valid() && rest != "" && (rest[0] == ',' || rest[0] == '}')
    ensures Parse(State(labels, "", "", false, false), w.Text() + rest) ==
            Parse(State(labels[w.key := w.Meant()], "", "", false, false), rest)
  {
    var name := w.before + w.key + w.after;
    var st := State(labels, name, "", true, false);
    TrimPads(w.before, w.key, w.after);
    assert name != "";
    hide Trim;
    if w.bare {
      assert w.Text() + rest == name + "=" + (w.value + rest);
      ReadsName(labels, w, w.value + rest);
      ReadsBare(st, w.value, rest);
      assert "" + w.value == w.value;
    } else {
      var quoted := Escaped(w.value) + "\"" + rest;
      assert w.Text() + rest == name + "=" + ("\"" + quoted);
      ReadsName(labels, w, "\"" + quoted);
      assert ("\"" + quoted)[1..] == quoted;
      ReadsValue(st.(inQuotes := true), w.value, rest);
      assert "" + w.value == w.value;
    }
  }

  function WrittenText(ws: seq<Written>): string {
    if ws == [] then "" else ws[0].Text() + (if |ws| == 1 then "" else "," + WrittenText(ws[1..]))
  }

  function Meanings(ws: seq<Written>): seq<Pair> {
    if ws == [] then [] else [Pair(ws[0].key, ws[0].Meant())] + Meanings(ws[1..])
  }

  lemma NothingWritten(labels: Labels)
    ensures WrittenText([]) == "" && ToMap(labels, Meanings([])) == labels
  {
  }

  lemma WrittenStep(labels: Labels, ws: seq<Written>)
    requires ws != []
    ensures WrittenText(ws) == ws[0].Text() + (if ws[1..] == [] then "" else "," + WrittenText(ws[1..]))
    ensures ToMap(labels, Meanings(ws)) == ToMap(labels[ws[0].key := ws[0].Meant()], Meanings(ws[1..]))
  {
    hide Written.Text, Written.Meant;
    assert Meanings(ws)[1..] == Meanings(ws[1..]);
  }

  /** Labels in any of these spellings are read as the pairs that they mean. */
  lemma {:induction false} WrittenRoundTrip(labels: Labels, ws: seq<Written>, trailingComma: bool, suffix: string)
    requires forall w :: w in ws ==> w.Valid()
    ensures Parse(State(labels, "", "", false, false), WrittenText(ws) + End(trailingComma, suffix))
      == Some((ToMap(labels, Meanings(ws)), suffix))
    decreases |ws|
  {
    hide Parse, Written.Text, Written.Meant, Written.Valid, WrittenText, Meanings, ToMap, End;
    var end := End(trailingComma, suffix);
    var whole := WrittenText(ws) + end;
    if ws == [] {
      NothingWritten(labels);
      assert whole == end;
      ReadsEnd(labels, trailingComma, suffix);
    } else {
      var w, more := ws[0], ws[1..];
      assert w in ws && forall x :: x in more ==> x in ws;
      var next := labels[w.key := w.Meant()];
      WrittenRoundTrip(next, more, trailingComma, suffix);
      WrittenStep(labels, ws);
      if more == [] {
        NothingWritten(next);
        assert whole == w.Text() + end && WrittenText(more) + end == end;
        ReadsWritten(labels, w, end);
      } else {
        var tail := WrittenText(more) + end;
        assert whole == w.Text() + ("," + tail);
        ReadsWritten(labels, w, "," + tail);
        SkipsComma(next, tail);
      }
    }
  }

  /** Labels without a closing brace are refused. */
  lemma {:induction false} UnclosedIsRefused(st: State, s: string)
    requires '}' !in s
    ensures Parse(st, s) == None
    decreases |s|
  {
    if s != "" {
      assert forall c :: c in s[1..] ==> c in s;
      if s[0] == '\\' && st.inQuotes && s[1..] != "" {
        assert forall c :: c in s[1..][1..] ==> c in s[1..];
        UnclosedIsRefused(st.(value := st.value + [if s[1..][0] == 'n' then '\n' else s[1..][0]]), s[1..][1..]);
      } else {
        forall t: State ensures Parse(t, s[1..]) == None {
          UnclosedIsRefused(t, s[1..]);
        }
      }
    }
  }
}
