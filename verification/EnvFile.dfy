/**
  The .env parser and printer of the bootstrap script.  Lines end with '\n'
  only: reading a file as text turns every other line ending into that one.
 */
module EnvFile {
  import opened Base
  import opened Text

  type Values = map<string, string>

  // ----------------------------------------------------------------- parsing

  /** str.splitlines(): a final line break does not start another line. */
  function Lines(text: string): seq<string> {
    var parts := Split(text, '\n');
    if parts[|parts| - 1] == "" then parts[..|parts| - 1] else parts
  }

  predicate StartsComment(s: string) {
    s != "" && s[0] == '#'
  }

  datatype Entry = Entry(key: string, value: string)

  /** What one line assigns, if anything. */
  function EntryOf(line: string): Option<Entry> {
    var stripped, parts := Strip(line), SplitAtMost(line, '=', 1);
    if stripped == "" || StartsComment(stripped) || |parts| != 2 then None
    else
      var key := Strip(parts[0]);
      if key == "" then None else Some(Entry(key, Strip(parts[1])))
  }

  function ParseLines(lines: seq<string>): Values {
    if lines == [] then map[]
    else
      Assigned(ParseLines(lines[..|lines| - 1]), EntryOf(lines[|lines| - 1]))
  }

  function Assigned(values: Values, entry: Option<Entry>): Values {
    if entry.None? then values else values[entry.value.key := entry.value.value]
  }

  function Parse(text: string): Values {
    ParseLines(Lines(text))
  }

  /** _parse_env_text. */
  method ParseEnvText(text: string) returns (values: Values)
    ensures values == Parse(text)
  {
    values := map[];
    var lines := Lines(text);
    for i := 0 to |lines|
      invariant values == ParseLines(lines[..i])
    {
      assert lines[..i + 1][..i] == lines[..i];
      var line := lines[i];
      var stripped, parts := Strip(line), SplitAtMost(line, '=', 1);
      if stripped == "" || StartsComment(stripped) || |parts| != 2 {
        continue;
      }
      var key := Strip(parts[0]);
      if key == "" {
        continue;
      }
      values := values[key := Strip(parts[1])];
    }
    assert lines[..|lines|] == lines;
  }

  // --------------------------------------------------------------- rendering

  /** The key a line of the template is taken to assign. */
  function LineKey(line: string): Option<string> {
    var parts := SplitAtMost(line, '=', 1);
    if line == "" || StartsComment(LStrip(line)) || |parts| != 2 then None else Some(Strip(parts[0]))
  }

  function Assignment(key: string, value: string): string {
    key + "=" + value
  }

  function RenderLine(line: string, values: Values): string {
    var key := LineKey(line);
    if key.Some? && key.value in values then Assignment(key.value, values[key.value]) else line
  }

  function RenderLines(lines: seq<string>, values: Values): (r: seq<string>)
    ensures |r| == |lines| && forall k :: 0 <= k < |lines| ==> r[k] == RenderLine(lines[k], values)
  {
    seq(|lines|, i requires 0 <= i < |lines| => RenderLine(lines[i], values))
  }

  function UpdatedKeys(lines: seq<string>, values: Values): set<string> {
    set k | 0 <= k < |lines| && LineKey(lines[k]).Some? && LineKey(lines[k]).value in values :: LineKey(lines[k]).value
  }

  /** The values without a line of their own, in the order of the dictionary. */
  function Appended(order: seq<string>, values: Values, updated: set<string>): seq<string>
    requires forall k :: k in order ==> k in values
  {
    if order == [] then []
    else
      var last := order[|order| - 1];
      Appended(order[..|order| - 1], values, updated) + if last in updated then [] else [Assignment(last, values[last])]
  }

  function AllLines(lines: seq<string>, values: Values, order: seq<string>): seq<string>
    requires forall k :: k in order ==> k in values
  {
    RenderLines(lines, values) + Appended(order, values, UpdatedKeys(lines, values))
  }

  function Render(template: string, values: Values, order: seq<string>): string
    requires forall k :: k in order ==> k in values
  {
    RStrip(Join(AllLines(Lines(template), values, order), '\n')) + "\n"
  }

  /** The first loop of _render_env. */
  method RenderTemplate(lines: seq<string>, values: Values) returns (rendered: seq<string>, updated: set<string>)
    ensures rendered == RenderLines(lines, values) && updated == UpdatedKeys(lines, values)
  {
    updated, rendered := {}, [];
    for i := 0 to |lines|
      invariant rendered == RenderLines(lines[..i], values)
      invariant updated == UpdatedKeys(lines[..i], values)
    {
      OneMoreLine(lines, i, values);
      var line := lines[i];
      var parts := SplitAtMost(line, '=', 1);
      if line == "" || StartsComment(LStrip(line)) || |parts| != 2 {
        rendered := rendered + [line];
        continue;
      }
      var key := Strip(parts[0]);
      if key in values {
        rendered := rendered + [Assignment(key, values[key])];
        updated := updated + {key};
      } else {
        rendered := rendered + [line];
      }
    }
    assert lines[..|lines|] == lines;
  }

  /** _render_env; `order` is the insertion order of the dictionary. */
  method RenderEnv(template: string, values: Values, order: seq<string>) returns (text: string)
    requires forall k :: k in order ==> k in values
    ensures text == Render(template, values, order)
  {
    var lines := Lines(template);
    var rendered, updated := RenderTemplate(lines, values);
    var appended: seq<string> := [];
    for i := 0 to |order|
      invariant appended == Appended(order[..i], values, updated)
    {
      AppendedOneMore(order[..i], order[i], values, updated);
      assert order[..i + 1] == order[..i] + [order[i]];
      if order[i] !in updated {
        appended := appended + [Assignment(order[i], values[order[i]])];
      }
    }
    assert order[..|order|] == order;
    return RStrip(Join(rendered + appended, '\n')) + "\n";
  }

  lemma OneMoreLine(lines: seq<string>, i: nat, values: Values)
    requires i < |lines|
    ensures RenderLines(lines[..i + 1], values) == RenderLines(lines[..i], values) + [RenderLine(lines[i], values)]
    ensures UpdatedKeys(lines[..i + 1], values)
            == UpdatedKeys(lines[..i], values)
               + match LineKey(lines[i])
                 case Some(k) => if k in values then {k} else {}
                 case None => {}
  {
    var shorter, longer := lines[..i], lines[..i + 1];
    forall k | 0 <= k < i ensures longer[k] == shorter[k] {
    }
    assert longer[i] == lines[i];
  }

  // ------------------------------------------------- the text and its lines

  predicate Blank(line: string) {
    RStrip(line) == ""
  }

  /** The lines that survive stripping the end of the file. */
  function Trim(lines: seq<string>): (r: seq<string>)
    ensures r != []
  {
    if lines == [] then [""]
    else if Blank(lines[|lines| - 1]) then Trim(lines[..|lines| - 1])
    else lines[..|lines| - 1] + [RStrip(lines[|lines| - 1])]
  }

  lemma {:induction false} JoinAtEnd(lines: seq<string>, last: string, sep: char)
    requires lines != []
    ensures Join(lines + [last], sep) == Join(lines, sep) + [sep] + last
  {
    assert (lines + [last])[1..] == lines[1..] + [last];
    if |lines| == 1 {
    } else {
      JoinAtEnd(lines[1..], last, sep);
    }
  }

  lemma {:induction false} RStripOfBlankTail(s: string, tail: string)
    requires Blank(tail)
    ensures RStrip(s + tail) == RStrip(s)
  {
    if tail == "" {
      assert s + tail == s;
    } else {
      assert (s + tail)[..|s + tail| - 1] == s + tail[..|tail| - 1];
      RStripOfBlankTail(s, tail[..|tail| - 1]);
    }
  }

  lemma {:induction false} RStripOfTail(s: string, tail: string)
    requires !Blank(tail)
    ensures RStrip(s + tail) == s + RStrip(tail)
  {
    if !IsSpace(tail[|tail| - 1]) {
    } else {
      assert (s + tail)[..|s + tail| - 1] == s + tail[..|tail| - 1];
      RStripOfTail(s, tail[..|tail| - 1]);
    }
  }

  /** Stripping the joined text is trimming its lines. */
  lemma {:induction false} TrimIsRStrip(lines: seq<string>)
    ensures RStrip(Join(lines, '\n')) == Join(Trim(lines), '\n')
  {
    if lines == [] {
    } else {
      var init, last := lines[..|lines| - 1], lines[|lines| - 1];
      assert lines == init + [last];
      if init == [] {
        assert lines == [last];
        if Blank(last) {
          assert Trim(init) == [""];
        }
      } else {
        JoinAtEnd(init, last, '\n');
        var head := Join(init, '\n') + ['\n'];
        if Blank(last) {
          RStripOfBlankTail(head, last);
          RStripOfBlankTail(Join(init, '\n'), ['\n']);
          TrimIsRStrip(init);
        } else {
          RStripOfTail(head, last);
          JoinAtEnd(init, RStrip(last), '\n');
        }
      }
    }
  }

  ghost predicate SingleLines(lines: seq<string>) {
    forall k :: 0 <= k < |lines| ==> Free(lines[k], '\n')
  }

  lemma {:induction false} TrimKeepsSingleLines(lines: seq<string>)
    requires SingleLines(lines)
    ensures SingleLines(Trim(lines))
  {
    if lines == [] {
    } else {
      RStripOfStripped(lines[|lines| - 1]);
      TrimKeepsSingleLines(lines[..|lines| - 1]);
    }
  }

  lemma LinesOfText(lines: seq<string>)
    requires lines != [] && SingleLines(lines)
    ensures Lines(Join(lines, '\n') + "\n") == lines
  {
    JoinAtEnd(lines, "", '\n');
    var all := lines + [""];
    forall p | p in all ensures Free(p, '\n') {
    }
    SplitOfJoin(all, '\n');
    assert Join(all, '\n') == Join(lines, '\n') + "\n";
  }

  lemma LinesAreSingle(text: string)
    ensures SingleLines(Lines(text))
  {
    SplitPiecesAreFree(text, '\n');
  }

  // ------------------------------------------------------ lines and entries

  lemma {:induction false} SplitAtMostOnce(s: string, sep: char)
    ensures var parts := SplitAtMost(s, sep, 1);
      if Free(s, sep) then parts == [s] else |parts| == 2 && Free(parts[0], sep) && s == parts[0] + [sep] + parts[1]
  {
    var parts := SplitAtMost(s, sep, 1);
    if s == "" {
    } else if s[0] == sep {
      SplitAtMostKeepsWhole(s[1..], sep);
      assert parts == ["", s[1..]];
      assert s == "" + [sep] + s[1..];
    } else {
      SplitAtMostOnce(s[1..], sep);
      assert s == [s[0]] + s[1..];
      var rest := SplitAtMost(s[1..], sep, 1);
      if Free(s[1..], sep) {
        assert parts == [[s[0]] + s[1..]];
      } else {
        assert parts == [[s[0]] + rest[0], rest[1]];
        assert s == [s[0]] + (rest[0] + [sep] + rest[1]);
        assert s == ([s[0]] + rest[0]) + [sep] + rest[1];
      }
    }
  }

  lemma {:induction false} StripKeepsInk(s: string, c: char)
    requires !Free(s, c) && !IsSpace(c)
    ensures !Free(LStrip(s), c) && Strip(s) != "" && Strip(s)[0] == LStrip(s)[0]
  {
    if IsSpace(s[0]) {
      StripKeepsInk(s[1..], c);
    } else {
      RStripOfStripped(s);
      RStripKeepsInk(s);
    }
  }

  lemma {:induction false} RStripKeepsInk(s: string)
    requires s != "" && !IsSpace(s[0])
    ensures RStrip(s) != ""
  {
    if !IsSpace(s[|s| - 1]) {
    } else {
      RStripKeepsInk(s[..|s| - 1]);
    }
  }

  /** Parser and printer agree on which line assigns which key, but for the empty key. */
  lemma EntryIsLineKey(line: string)
    ensures EntryOf(line).Some? <==> LineKey(line).Some? && LineKey(line).value != ""
    ensures EntryOf(line).Some? ==> EntryOf(line).value.key == LineKey(line).value
  {
    SplitAtMostOnce(line, '=');
    if !Free(line, '=') {
      StripKeepsInk(line, '=');
    }
  }

  predicate GoodKey(k: string) {
    k != "" && Stripped(k) && Free(k, '=') && Free(k, '\n') && k[0] != '#'
  }

  ghost predicate GoodValues(values: Values) {
    forall k :: k in values ==> GoodKey(k) && Free(values[k], '\n')
  }

  lemma EntryOfAssignment(k: string, v: string)
    requires GoodKey(k)
    ensures LineKey(Assignment(k, v)) == Some(k) && EntryOf(Assignment(k, v)) == Some(Entry(k, Strip(v)))
  {
    var line := Assignment(k, v);
    assert line == k + ['='] + v && line[0] == k[0];
    SplitAtMostAtFirst(k, '=', v, 0);
    SplitAtMostKeepsWhole(v, '=');
    StripIsStripped(k);
    assert LStrip(line) == line;
    EntryIsLineKey(line);
  }

  lemma {:induction false} LStripOfTail(s: string, c: char)
    requires IsSpace(c)
    ensures LStrip(s + [c]) == if LStrip(s) == "" then "" else LStrip(s) + [c]
  {
    if s == "" {
      assert (s + [c])[1..] == "";
    } else if IsSpace(s[0]) {
      assert (s + [c])[1..] == s[1..] + [c];
      LStripOfTail(s[1..], c);
    }
  }

  lemma StripOfTail(s: string, c: char)
    requires IsSpace(c)
    ensures Strip(s + [c]) == Strip(s)
  {
    LStripOfTail(s, c);
    assert (LStrip(s) + [c])[..|LStrip(s)|] == LStrip(s);
  }

  lemma {:induction false} SplitAtMostOfTail(s: string, c: char)
    requires IsSpace(c)
    ensures var parts, longer := SplitAtMost(s, '=', 1), SplitAtMost(s + [c], '=', 1);
      if Free(s, '=') then |longer| == |parts| == 1 else |parts| == 2 && longer == [parts[0], parts[1] + [c]]
  {
    SplitAtMostOnce(s, '=');
    SplitAtMostOnce(s + [c], '=');
    if !Free(s, '=') {
      var parts := SplitAtMost(s, '=', 1);
      assert s + [c] == parts[0] + ['='] + (parts[1] + [c]);
      SplitAtMostAtFirst(parts[0], '=', parts[1] + [c], 0);
      SplitAtMostKeepsWhole(parts[1] + [c], '=');
    }
  }

  /** White space at the end of a line changes neither its key nor its entry. */
  lemma {:induction false} EntryOfRStrip(line: string)
    ensures LineKey(RStrip(line)) == LineKey(line) && EntryOf(RStrip(line)) == EntryOf(line)
  {
    if line == "" || !IsSpace(line[|line| - 1]) {
    } else {
      var shorter, c := line[..|line| - 1], line[|line| - 1];
      assert line == shorter + [c];
      EntryOfRStrip(shorter);
      SplitAtMostOfTail(shorter, c);
      StripOfTail(shorter, c);
      LStripOfTail(shorter, c);
      if !Free(shorter, '=') {
        StripOfTail(SplitAtMost(shorter, '=', 1)[1], c);
        StripKeepsInk(shorter, '=');
      }
    }
  }

  lemma {:induction false} ParseOfTrim(lines: seq<string>)
    ensures ParseLines(Trim(lines)) == ParseLines(lines)
  {
    if lines != [] {
      var last := lines[|lines| - 1];
      EntryOfRStrip(last);
      if Blank(last) {
        ParseOfTrim(lines[..|lines| - 1]);
      } else {
        var trimmed := Trim(lines);
        assert trimmed[..|trimmed| - 1] == lines[..|lines| - 1];
      }
    } else {
      assert Trim(lines)[..0] == [];
    }
  }

  // --------------------------------------------------------- the round trip

  function StripAll(values: Values): Values {
    map k | k in values :: Strip(values[k])
  }

  /** The template's values with every line the printer rewrites. */
  function Rewritten(own: Values, values: Values): Values {
    map k | k in own :: if k in values then Strip(values[k]) else own[k]
  }

  lemma ParseOneMore(lines: seq<string>, line: string)
    ensures ParseLines(lines + [line]) == Assigned(ParseLines(lines), EntryOf(line))
  {
    assert (lines + [line])[..|lines|] == lines;
  }

  lemma RewrittenAssigned(own: Values, values: Values, k: string, v: string)
    ensures Rewritten(own[k := v], values) == Rewritten(own, values)[k := if k in values then Strip(values[k]) else v]
  {
  }

  lemma RewrittenLine(own: Values, line: string, values: Values)
    requires GoodValues(values)
    ensures Assigned(Rewritten(own, values), EntryOf(RenderLine(line, values)))
            == Rewritten(Assigned(own, EntryOf(line)), values)
  {
    EntryIsLineKey(line);
    var key, entry := LineKey(line), EntryOf(line);
    if key.Some? && key.value in values {
      EntryOfAssignment(key.value, values[key.value]);
    }
    if entry.Some? {
      RewrittenAssigned(own, values, entry.value.key, entry.value.value);
    }
  }

  lemma RenderOneMore(lines: seq<string>, line: string, values: Values)
    ensures RenderLines(lines + [line], values) == RenderLines(lines, values) + [RenderLine(line, values)]
  {
  }

  lemma {:induction false} ParseOfRenderLines(lines: seq<string>, values: Values)
    requires GoodValues(values)
    ensures ParseLines(RenderLines(lines, values)) == Rewritten(ParseLines(lines), values)
  {
    if lines == [] {
    } else {
      var shorter, line := lines[..|lines| - 1], lines[|lines| - 1];
      assert lines == shorter + [line];
      ParseOfRenderLines(shorter, values);
      RenderOneMore(shorter, line, values);
      ParseOneMore(shorter, line);
      ParseOneMore(RenderLines(shorter, values), RenderLine(line, values));
      RewrittenLine(ParseLines(shorter), line, values);
    }
  }

  lemma {:induction false} UpdatedKeysAreParsed(lines: seq<string>, values: Values)
    requires GoodValues(values)
    ensures UpdatedKeys(lines, values) == ParseLines(lines).Keys * values.Keys
  {
    if lines == [] {
    } else {
      var n := |lines| - 1;
      OneMoreLine(lines, n, values);
      assert lines[..n + 1] == lines;
      UpdatedKeysAreParsed(lines[..n], values);
      EntryIsLineKey(lines[n]);
    }
  }

  /** What the appended lines add. */
  function Added(order: seq<string>, values: Values, updated: set<string>): Values
    requires forall k :: k in order ==> k in values
  {
    map k | k in order && k !in updated :: Strip(values[k])
  }

  lemma AddedOneMore(base: Values, order: seq<string>, last: string, values: Values, updated: set<string>)
    requires last in values && forall k :: k in order ==> k in values
    ensures base + Added(order + [last], values, updated)
            == if last in updated then base + Added(order, values, updated)
               else (base + Added(order, values, updated))[last := Strip(values[last])]
  {
    var longer, shorter := Added(order + [last], values, updated), Added(order, values, updated);
    assert longer == if last in updated then shorter else shorter[last := Strip(values[last])];
  }

  /** The remaining values follow in order, each on a line of its own. */
  lemma AppendedOneMore(order: seq<string>, last: string, values: Values, updated: set<string>)
    requires last in values && forall k :: k in order ==> k in values
    ensures Appended(order + [last], values, updated)
            == Appended(order, values, updated) + if last in updated then [] else [last + "=" + values[last]]
  {
    assert (order + [last])[..|order|] == order;
  }

  lemma {:induction false} ParseOfAppended(base: seq<string>, order: seq<string>, values: Values, updated: set<string>)
    requires GoodValues(values) && forall k :: k in order ==> k in values
    ensures ParseLines(base + Appended(order, values, updated)) == ParseLines(base) + Added(order, values, updated)
  {
    if order == [] {
      assert base + [] == base;
    } else {
      var shorter, last := order[..|order| - 1], order[|order| - 1];
      assert order == shorter + [last];
      ParseOfAppended(base, shorter, values, updated);
      AddedOneMore(ParseLines(base), shorter, last, values, updated);
      AppendedOneMore(shorter, last, values, updated);
      if last in updated {
        assert Appended(shorter, values, updated) + [] == Appended(shorter, values, updated);
      } else {
        ParseOfOneMoreAppended(base, Appended(shorter, values, updated), last, values[last]);
      }
    }
  }

  lemma ParseOfOneMoreAppended(base: seq<string>, appended: seq<string>, k: string, v: string)
    requires GoodKey(k)
    ensures ParseLines(base + (appended + [Assignment(k, v)])) == ParseLines(base + appended)[k := Strip(v)]
  {
    EntryOfAssignment(k, v);
    ParseOneMore(base + appended, Assignment(k, v));
    assert base + (appended + [Assignment(k, v)]) == (base + appended) + [Assignment(k, v)];
  }

  /** `order` lists the keys of the dictionary. */
  ghost predicate Lists(order: seq<string>, values: Values) {
    forall k :: k in order <==> k in values
  }

  lemma ParseOfAllLines(lines: seq<string>, values: Values, order: seq<string>)
    requires GoodValues(values) && Lists(order, values)
    ensures ParseLines(AllLines(lines, values, order)) == ParseLines(lines) + StripAll(values)
  {
    ParseOfRenderLines(lines, values);
    UpdatedKeysAreParsed(lines, values);
    ParseOfAppended(RenderLines(lines, values), order, values, UpdatedKeys(lines, values));
    RewrittenAndAdded(ParseLines(lines), values, order);
  }

  lemma RewrittenAndAdded(own: Values, values: Values, order: seq<string>)
    requires Lists(order, values)
    ensures Rewritten(own, values) + Added(order, values, own.Keys * values.Keys) == own + StripAll(values)
  {
  }

  lemma {:induction false} AppendedAreSingleLines(order: seq<string>, values: Values, updated: set<string>)
    requires GoodValues(values) && forall k :: k in order ==> k in values
    ensures SingleLines(Appended(order, values, updated))
  {
    if order == [] {
    } else {
      AppendedAreSingleLines(order[..|order| - 1], values, updated);
    }
  }

  lemma AllLinesAreSingle(lines: seq<string>, values: Values, order: seq<string>)
    requires GoodValues(values) && Lists(order, values) && SingleLines(lines)
    ensures SingleLines(AllLines(lines, values, order))
  {
    AppendedAreSingleLines(order, values, UpdatedKeys(lines, values));
    forall k | 0 <= k < |lines| ensures Free(RenderLine(lines[k], values), '\n') {
    }
  }

  /** The printed file is its trimmed lines. */
  lemma LinesOfRender(template: string, values: Values, order: seq<string>)
    requires GoodValues(values) && Lists(order, values)
    ensures Lines(Render(template, values, order)) == Trim(AllLines(Lines(template), values, order))
  {
    var lines := AllLines(Lines(template), values, order);
    LinesAreSingle(template);
    AllLinesAreSingle(Lines(template), values, order);
    TrimKeepsSingleLines(lines);
    TrimIsRStrip(lines);
    LinesOfText(Trim(lines));
  }

  /** Printing over any template and parsing gives the template's own values with
      the printed ones over them. */
  lemma ParseOfRender(template: string, values: Values, order: seq<string>)
    requires GoodValues(values) && Lists(order, values)
    ensures Parse(Render(template, values, order)) == Parse(template) + StripAll(values)
  {
    LinesOfRender(template, values, order);
    ParseOfTrim(AllLines(Lines(template), values, order));
    ParseOfAllLines(Lines(template), values, order);
  }

  /** It gives back exactly the printed values when, and only when, they are stripped
      and cover the template's keys. */
  lemma RoundTripIff(template: string, values: Values, order: seq<string>)
    requires GoodValues(values) && Lists(order, values)
    ensures Parse(Render(template, values, order)) == values
            <==> Parse(template).Keys <= values.Keys && forall k :: k in values ==> Text.Stripped(values[k])
  {
    ParseOfRender(template, values, order);
    OverlayIsItselfIff(Parse(template), values);
  }

  lemma OverlayIsItselfIff(own: Values, values: Values)
    ensures own + StripAll(values) == values
            <==> own.Keys <= values.Keys && forall k :: k in values ==> Text.Stripped(values[k])
  {
    var seen := own + StripAll(values);
    forall k | k in values
      ensures (Strip(values[k]) == values[k] <==> Text.Stripped(values[k])) && seen[k] == Strip(values[k])
    {
      StripIsStripped(values[k]);
    }
    assert seen.Keys == own.Keys + values.Keys;
    if seen == values {
      assert seen.Keys == values.Keys;
    } else if own.Keys <= values.Keys {
      assert seen.Keys == values.Keys;
    }
  }

  // ---------------------------------------------------- the bootstrap script

  lemma {:induction false} ParsedValuesAreGood(lines: seq<string>)
    requires SingleLines(lines)
    ensures GoodValues(ParseLines(lines))
    ensures forall k :: k in ParseLines(lines) ==> Text.Stripped(ParseLines(lines)[k])
  {
    if lines == [] {
    } else {
      ParsedValuesAreGood(lines[..|lines| - 1]);
      if EntryOf(lines[|lines| - 1]).Some? {
        ParsedEntryIsGood(lines[|lines| - 1]);
      }
    }
  }

  lemma StrippedPart(part: string, c: char)
    requires Free(part, c)
    ensures Free(Strip(part), c) && Text.Stripped(Strip(part))
  {
    StripKeepsFree(part, c);
    StripIsStripped(part);
  }

  /** The key of an entry is where its line starts. */
  lemma KeyStartsTheLine(key: string, tail: string)
    requires Strip(key) != "" && !Free(tail, '=') && !StartsComment(Strip(key + tail))
    ensures Strip(key)[0] != '#'
  {
    FirstInk(key, tail);
    var at :| 0 <= at < |tail| && tail[at] == '=';
    assert (key + tail)[|key| + at] == '=';
    StripKeepsInk(key + tail, '=');
  }

  lemma ParsedEntryIsGood(line: string)
    requires Free(line, '\n') && EntryOf(line).Some?
    ensures var e := EntryOf(line).value; GoodKey(e.key) && Free(e.value, '\n') && Text.Stripped(e.value)
  {
    var parts := SplitAtMost(line, '=', 1);
    SplitAtMostOnce(line, '=');
    PiecesAreFree(parts[0], ['='], parts[1], '\n');
    StrippedPart(parts[0], '=');
    StrippedPart(parts[0], '\n');
    StrippedPart(parts[1], '\n');
    var tail := ['='] + parts[1];
    assert tail[0] == '=' && line == parts[0] + tail;
    KeyStartsTheLine(parts[0], tail);
  }

  lemma PiecesAreFree(a: string, b: string, c: string, x: char)
    requires Free(a + b + c, x)
    ensures Free(a, x) && Free(c, x)
  {
    forall k | 0 <= k < |a| ensures a[k] != x {
      assert (a + b + c)[k] == a[k];
    }
    forall k | 0 <= k < |c| ensures c[k] != x {
      assert (a + b + c)[|a| + |b| + k] == c[k];
    }
  }

  lemma {:induction false} FirstInk(s: string, tail: string)
    requires Strip(s) != ""
    ensures LStrip(s) != "" && LStrip(s + tail) != "" && LStrip(s + tail)[0] == LStrip(s)[0] == Strip(s)[0]
  {
    RStripOfStripped(LStrip(s));
    if !IsSpace(s[0]) {
    } else {
      assert (s + tail)[1..] == s[1..] + tail;
      FirstInk(s[1..], tail);
    }
  }

  /** The whole script: the template's values with new ones over them are what the
      file it writes holds. */
  lemma BootstrapWritesItsValues(template: string, changes: Values, order: seq<string>)
    requires GoodValues(changes) && forall k :: k in changes ==> Text.Stripped(changes[k])
    requires Lists(order, Parse(template) + changes)
    ensures Parse(Render(template, Parse(template) + changes, order)) == Parse(template) + changes
  {
    LinesAreSingle(template);
    ParsedValuesAreGood(Lines(template));
    RoundTripIff(template, Parse(template) + changes, order);
  }

  // -------------------------------------------------------------- idempotence

  lemma RenderLineTwice(line: string, values: Values)
    requires GoodValues(values)
    ensures RenderLine(RenderLine(line, values), values) == RenderLine(line, values)
    ensures RStrip(RenderLine(RStrip(RenderLine(line, values)), values)) == RStrip(RenderLine(line, values))
  {
    var once := RenderLine(line, values);
    var key := LineKey(line);
    if key.Some? && key.value in values {
      EntryOfAssignment(key.value, values[key.value]);
    }
    EntryOfRStrip(once);
    RStripOfStripped(once);
    assert RStrip(RStrip(once)) == RStrip(once);
  }

  /** Every line is as the printer would write it again. */
  ghost predicate Settled(lines: seq<string>, values: Values) {
    forall k :: 0 <= k < |lines| ==> RenderLine(lines[k], values) == lines[k]
  }

  lemma {:induction false} AppendedIsSettled(order: seq<string>, values: Values, updated: set<string>)
    requires GoodValues(values) && forall k :: k in order ==> k in values
    ensures Settled(Appended(order, values, updated), values)
  {
    if order == [] {
    } else {
      AppendedIsSettled(order[..|order| - 1], values, updated);
      var last := order[|order| - 1];
      EntryOfAssignment(last, values[last]);
    }
  }

  lemma AllLinesAreSettled(lines: seq<string>, values: Values, order: seq<string>)
    requires GoodValues(values) && Lists(order, values)
    ensures Settled(AllLines(lines, values, order), values)
  {
    AppendedIsSettled(order, values, UpdatedKeys(lines, values));
    forall k | 0 <= k < |lines|
      ensures RenderLine(RenderLine(lines[k], values), values) == RenderLine(lines[k], values)
    {
      RenderLineTwice(lines[k], values);
    }
  }

  /** Trimming, printing the lines again and trimming once more changes nothing. */
  lemma {:induction false} TrimOfSettled(lines: seq<string>, values: Values)
    requires GoodValues(values) && Settled(lines, values)
    ensures Trim(RenderLines(Trim(lines), values)) == Trim(lines)
  {
    if lines == [] {
      assert RenderLine("", values) == "";
      assert RenderLines([""], values) == [""];
      assert [""][..0] == [];
    } else {
      var n := |lines| - 1;
      var init, last := lines[..n], lines[n];
      if Blank(last) {
        TrimOfSettled(init, values);
      } else {
        RenderLineTwice(last, values);
        var again := RenderLines(Trim(lines), values);
        assert again[..n] == init;
        assert again[n] == RenderLine(RStrip(last), values) && RStrip(again[n]) == RStrip(last);
      }
    }
  }

  lemma {:induction false} NothingAppended(order: seq<string>, values: Values, updated: set<string>)
    requires forall k :: k in order ==> k in values && k in updated
    ensures Appended(order, values, updated) == []
  {
    if order == [] {
    } else {
      NothingAppended(order[..|order| - 1], values, updated);
    }
  }

  /** Printing the same values over a printed file writes that file again. */
  lemma RenderIsIdempotent(template: string, values: Values, order: seq<string>)
    requires GoodValues(values) && Lists(order, values)
    ensures Render(Render(template, values, order), values, order) == Render(template, values, order)
  {
    var all := AllLines(Lines(template), values, order);
    LinesOfRender(template, values, order);
    ParseOfTrim(all);
    ParseOfAllLines(Lines(template), values, order);
    UpdatedKeysAreParsed(Trim(all), values);
    assert UpdatedKeys(Trim(all), values) == values.Keys;
    NothingAppended(order, values, UpdatedKeys(Trim(all), values));
    AllLinesAreSettled(Lines(template), values, order);
    TrimOfSettled(all, values);
    TrimIsRStrip(all);
    TrimIsRStrip(RenderLines(Trim(all), values));
    assert AllLines(Trim(all), values, order) == RenderLines(Trim(all), values);
  }

  // ----------------------------------------------------------------- comments

  /** The comment lines, up to white space at their ends. */
  function Comments(lines: seq<string>): seq<string> {
    if lines == [] then []
    else
      var last := lines[|lines| - 1];
      Comments(lines[..|lines| - 1]) + if StartsComment(LStrip(last)) then [RStrip(last)] else []
  }

  lemma {:induction false} LStripOfRStrip(s: string)
    ensures StartsComment(LStrip(RStrip(s))) == StartsComment(LStrip(s))
  {
    if s == "" || !IsSpace(s[|s| - 1]) {
    } else {
      var shorter := s[..|s| - 1];
      assert s == shorter + [s[|s| - 1]];
      LStripOfRStrip(shorter);
      LStripOfTail(shorter, s[|s| - 1]);
    }
  }

  lemma {:induction false} CommentsOfTrim(lines: seq<string>)
    ensures Comments(Trim(lines)) == Comments(lines)
  {
    if lines == [] {
      assert Trim(lines)[..0] == [];
    } else {
      var n := |lines| - 1;
      LStripOfRStrip(lines[n]);
      RStripOfStripped(lines[n]);
      assert RStrip(RStrip(lines[n])) == RStrip(lines[n]);
      if Blank(lines[n]) {
        CommentsOfTrim(lines[..n]);
      } else {
        assert Trim(lines)[..n] == lines[..n];
      }
    }
  }

  lemma {:induction false} CommentsOfRenderLines(lines: seq<string>, values: Values)
    requires GoodValues(values)
    ensures Comments(RenderLines(lines, values)) == Comments(lines)
  {
    if lines == [] {
    } else {
      var n := |lines| - 1;
      CommentsOfRenderLines(lines[..n], values);
      var rendered, key := RenderLines(lines, values), LineKey(lines[n]);
      assert rendered[..n] == RenderLines(lines[..n], values);
      if key.Some? && key.value in values {
        AssignmentIsNoComment(key.value, values[key.value]);
      }
    }
  }

  lemma AssignmentIsNoComment(k: string, v: string)
    requires GoodKey(k)
    ensures !StartsComment(LStrip(Assignment(k, v)))
  {
    assert Assignment(k, v)[0] == k[0];
  }

  lemma {:induction false} CommentsOfAppended(base: seq<string>, order: seq<string>, values: Values,
                                              updated: set<string>)
    requires GoodValues(values) && forall k :: k in order ==> k in values
    ensures Comments(base + Appended(order, values, updated)) == Comments(base)
  {
    if order == [] {
      assert base + [] == base;
    } else {
      var shorter, last := order[..|order| - 1], order[|order| - 1];
      CommentsOfAppended(base, shorter, values, updated);
      var before, longer := base + Appended(shorter, values, updated), base + Appended(order, values, updated);
      if last in updated {
        assert longer == before;
      } else {
        assert longer == before + [Assignment(last, values[last])];
        CommentsOfOneMore(before, last, values[last]);
      }
    }
  }

  lemma CommentsOfOneMore(lines: seq<string>, k: string, v: string)
    requires GoodKey(k)
    ensures Comments(lines + [Assignment(k, v)]) == Comments(lines)
  {
    AssignmentIsNoComment(k, v);
    assert (lines + [Assignment(k, v)])[..|lines|] == lines;
  }

  /** Every comment of the template is in the printed file, in its place, and no other. */
  lemma CommentsAreKept(template: string, values: Values, order: seq<string>)
    requires GoodValues(values) && Lists(order, values)
    ensures Comments(Lines(Render(template, values, order))) == Comments(Lines(template))
  {
    LinesOfRender(template, values, order);
    CommentsOfTrim(AllLines(Lines(template), values, order));
    CommentsOfAppended(RenderLines(Lines(template), values), order, values, UpdatedKeys(Lines(template), values));
    CommentsOfRenderLines(Lines(template), values);
  }

  // ------------------------------------------------- what one line amounts to

  /** Cut at the first equals sign. */
  predicate CutAt(line: string, before: string, after: string) {
    line == before + ['='] + after && Free(before, '=')
  }

  lemma CutIsUnique(line: string, before: string, after: string)
    requires CutAt(line, before, after)
    ensures SplitAtMost(line, '=', 1) == [before, after] && !Free(line, '=')
  {
    SplitAtMostAtFirst(before, '=', after, 0);
    SplitAtMostKeepsWhole(after, '=');
    assert line[|before|] == '=';
  }

  lemma InkOfLine(line: string, before: string, after: string)
    requires CutAt(line, before, after)
    ensures Strip(line) != "" && LStrip(line) != "" && Strip(line)[0] == LStrip(line)[0]
    ensures Strip(before) != "" ==> Strip(line)[0] == Strip(before)[0]
  {
    CutIsUnique(line, before, after);
    StripKeepsInk(line, '=');
    assert line == before + (['='] + after);
    if Strip(before) != "" {
      FirstInk(before, ['='] + after);
    }
  }

  /** A line assigns a key exactly when what stands before its first equals sign,
      stripped, is that key, which is neither empty nor starts with a hash; the value
      is the rest, stripped. */
  lemma AssignsIff(line: string, key: string, value: string)
    ensures EntryOf(line) == Some(Entry(key, value)) <==>
      key != "" && key[0] != '#'
      && exists before, after :: CutAt(line, before, after) && Strip(before) == key && Strip(after) == value
  {
    SplitAtMostOnce(line, '=');
    if EntryOf(line) == Some(Entry(key, value)) {
      var parts := SplitAtMost(line, '=', 1);
      assert CutAt(line, parts[0], parts[1]);
      InkOfLine(line, parts[0], parts[1]);
    }
    forall before, after | CutAt(line, before, after)
      ensures SplitAtMost(line, '=', 1) == [before, after] && Strip(line) != ""
      ensures Strip(before) != "" ==> Strip(line)[0] == Strip(before)[0]
    {
      CutIsUnique(line, before, after);
      InkOfLine(line, before, after);
    }
  }

  /** A line of the template is rewritten exactly when it assigns, and is no comment,
      a key with a new value; every other line is printed as it is. */
  lemma LineIsRewrittenIff(line: string, values: Values, before: string, after: string)
    requires CutAt(line, before, after)
    ensures LStrip(line) != ""
    ensures RenderLine(line, values) == if LStrip(line)[0] != '#' && Strip(before) in values
                                        then Strip(before) + "=" + values[Strip(before)] else line
  {
    CutIsUnique(line, before, after);
    InkOfLine(line, before, after);
  }

  lemma LineWithoutEqualsStays(line: string, values: Values)
    requires Free(line, '=')
    ensures RenderLine(line, values) == line
  {
    SplitAtMostOnce(line, '=');
  }

  /** The printed file ends in one line break, and not in other white space before it. */
  lemma OneFinalNewline(template: string, values: Values, order: seq<string>)
    requires forall k :: k in order ==> k in values
    ensures var text := Render(template, values, order);
      text != "" && text[|text| - 1] == '\n' && (|text| > 1 ==> !IsSpace(text[|text| - 2]))
  {
    RStripOfStripped(Join(AllLines(Lines(template), values, order), '\n'));
  }
}
