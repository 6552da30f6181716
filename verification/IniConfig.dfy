/** The INI parser behind the driver's cloud-config file (pkg/vcloud/client/config.go). */
module IniConfig {
  import opened Options
  import opened GoStrings

  type Sections = map<string, map<string, string>>

  /** The state of the line loop: the current section and the nested map built so far. */
  datatype Parser = Parser(section: string, sections: Sections) {
    /** A write to the current section never hits a missing map. */
    predicate Valid() {
      section != "" ==> section in sections
    }

    function Open(name: string): Parser {
      Parser(name, if name in sections then sections else sections[name := map[]])
    }

    function Set(key: string, value: string): Parser
      requires section in sections
    {
      this.(sections := sections[section := sections[section][key := value]])
    }
  }

  const START := Parser("", map[])

  predicate IsQuote(c: char) {
    c == '"' || c == '\''
  }

  /** Position of the first '=', or the length when there is none. */
  function IndexOfEq(s: string): (i: nat)
    ensures i <= |s|
    ensures i < |s| ==> s[i] == '='
    ensures forall j | 0 <= j < i :: s[j] != '='
  {
    if s == "" || s[0] == '=' then 0 else 1 + IndexOfEq(s[1..])
  }

  predicate Skippable(line: string) {
    line == "" || HasPrefix(line, "#") || HasPrefix(line, ";")
  }

  predicate IsHeader(line: string) {
    HasPrefix(line, "[") && HasSuffix(line, "]")
  }

  /** What one line does to the parser. */
  function Step(st: Parser, raw: string): (r: Parser)
    requires st.Valid()
    ensures r.Valid()
    ensures st.sections.Keys <= r.sections.Keys
  {
    var line := TrimSpace(raw);
    if Skippable(line) then st
    else if IsHeader(line) then st.Open(TrimSpace(line[1..|line| - 1]))
    else if st.section == "" then st
    else
      var i := IndexOfEq(line);
      if i == |line| then st
      else st.Set(TrimSpace(line[..i]), TrimFunc(TrimSpace(line[i + 1..]), IsQuote))
  }

  function Run(st: Parser, lines: seq<string>): (r: Parser)
    requires st.Valid()
    ensures r.Valid()
    decreases |lines|
  {
    if lines == [] then st else Run(Step(st, lines[0]), lines[1..])
  }

  // ---------------------------------------------------------------- reading lines

  function DropCR(line: string): string {
    if HasSuffix(line, "\r") then line[..|line| - 1] else line
  }

  function DropCRs(lines: seq<string>): (r: seq<string>)
    ensures |r| == |lines|
  {
    if lines == [] then [] else [DropCR(lines[0])] + DropCRs(lines[1..])
  }

  /** The tokens of a bufio.Scanner: the lines without their ends, no empty last one. */
  function ScanLines(text: string): seq<string> {
    var pieces := Split(text, '\n');
    var last := |pieces| - 1;
    DropCRs(if pieces[last] == "" then pieces[..last] else pieces)
  }

  function Parse(text: string): Sections {
    Run(START, ScanLines(text)).sections
  }

  lemma RunUnfolds(st: Parser, lines: seq<string>, i: nat)
    requires st.Valid() && i < |lines|
    ensures Run(st, lines[i..]) == Run(Step(st, lines[i]), lines[i + 1..])
  {
    assert lines[i..][1..] == lines[i + 1..];
  }

  /** The line loop of parseINIFile, updating the section and the nested map as it goes. */
  method ParseINIFile(text: string) returns (sections: Sections)
    ensures sections == Parse(text)
  {
    var lines := ScanLines(text);
    sections := map[];
    var currentSection := "";
    var lineNum := 0;
    while lineNum < |lines|
      invariant 0 <= lineNum <= |lines|
      invariant currentSection != "" ==> currentSection in sections
      invariant Run(START, lines) == Run(Parser(currentSection, sections), lines[lineNum..])
    {
      RunUnfolds(Parser(currentSection, sections), lines, lineNum);
      currentSection, sections := ParseLine(currentSection, sections, lines[lineNum]);
      lineNum := lineNum + 1;
    }
  }

  /** The body of the loop; its early exits are the loop's continue statements. */
  method ParseLine(section: string, sections: Sections, raw: string) returns (section': string, sections': Sections)
    requires Parser(section, sections).Valid()
    ensures Parser(section', sections') == Step(Parser(section, sections), raw)
  {
    section', sections' := section, sections;
    var line := TrimSpace(raw);
    if line == "" || HasPrefix(line, "#") || HasPrefix(line, ";") {
      return;
    }
    if HasPrefix(line, "[") && HasSuffix(line, "]") {
      section' := TrimSpace(line[1..|line| - 1]);
      if section' !in sections' {
        sections' := sections'[section' := map[]];
      }
      return;
    }
    if section' == "" {
      return;
    }
    var eq := IndexOfEq(line);
    if eq == |line| {
      return;
    }
    var key := TrimSpace(line[..eq]);
    var value := TrimFunc(TrimSpace(line[eq + 1..]), IsQuote);
    sections' := sections'[section' := sections'[section'][key := value]];
  }

  // ---------------------------------------------------------------- printing

  /** One assignment with its layout: `indent key gap = gap' open value close trail`. */
  datatype Entry = Entry(key: string, value: string, indent: string, gap: string, gap': string,
                         open: string, close: string, trail: string)

  datatype Section = Section(name: string, indent: string, gap: string, gap': string, trail: string,
                             entries: seq<Entry>)

  function Left(e: Entry): string { e.indent + e.key + e.gap }
  function Right(e: Entry): string { e.gap' + e.open + e.value + e.close + e.trail }
  function EntryLine(e: Entry): string { Left(e) + "=" + Right(e) }

  function HeaderLine(s: Section): string {
    s.indent + "[" + s.gap + s.name + s.gap' + "]" + s.trail
  }

  predicate Padding(s: string) {
    Blank(s) && '\n' !in s
  }

  /** A key and value that survive: trimmed, free of line ends, not mistakable for something else. */
  predicate EntryOk(e: Entry) {
    && Padding(e.indent) && Padding(e.gap) && Padding(e.gap') && Padding(e.trail)
    && '\n' !in e.key && '=' !in e.key && Tight(e.key, IsSpace)
    && !HasPrefix(e.key, "#") && !HasPrefix(e.key, ";")
    && '\n' !in e.value && Tight(e.value, IsQuote)
    && (forall c | c in e.open :: IsQuote(c)) && (forall c | c in e.close :: IsQuote(c))
    && Tight(e.open + e.value + e.close, IsSpace)
    && !(HasPrefix(e.key, "[") && HasSuffix(e.open + e.value + e.close, "]"))
  }

  predicate SectionOk(s: Section) {
    && Padding(s.indent) && Padding(s.gap) && Padding(s.gap') && Padding(s.trail)
    && s.name != "" && '\n' !in s.name && Tight(s.name, IsSpace)
    && forall i | 0 <= i < |s.entries| :: EntryOk(s.entries[i])
  }

  function EntryLines(es: seq<Entry>): seq<string> {
    if es == [] then [] else [EntryLine(es[0])] + EntryLines(es[1..])
  }

  function Lines(doc: seq<Section>): seq<string> {
    if doc == [] then []
    else [HeaderLine(doc[0])] + EntryLines(doc[0].entries) + Lines(doc[1..])
  }

  function Print(doc: seq<Section>): string {
    Terminated(Lines(doc), '\n')
  }

  // ---------------------------------------------------------------- what a document means

  /** The last value a list of entries gives a key. */
  function LastIn(es: seq<Entry>, key: string): Option<string> {
    if es == [] then None
    else
      var later := LastIn(es[1..], key);
      if later.Some? then later else if es[0].key == key then Some(es[0].value) else None
  }

  /** The last value a document gives a key of a section, over all sections of that name. */
  function Last(doc: seq<Section>, name: string, key: string): Option<string> {
    if doc == [] then None
    else
      var later := Last(doc[1..], name, key);
      if later.Some? then later else if doc[0].name == name then LastIn(doc[0].entries, key) else None
  }

  function Lookup(m: Sections, name: string, key: string): Option<string> {
    if name in m && key in m[name] then Some(m[name][key]) else None
  }

  // ---------------------------------------------------------------- lines and states

  lemma {:induction false} TrimDropsLast(s: string, c: char)
    requires IsSpace(c)
    ensures TrimSpace(s + [c]) == TrimSpace(s)
    decreases |s|
  {
    var t := s + [c];
    if s == "" {
      assert t[1..] == "";
    } else if IsSpace(s[0]) {
      assert t[1..] == s[1..] + [c];
      TrimDropsLast(s[1..], c);
    } else {
      assert t[..|t| - 1] == s;
    }
  }

  lemma StepIgnoresCR(st: Parser, line: string)
    requires st.Valid()
    ensures Step(st, DropCR(line)) == Step(st, line)
  {
    if HasSuffix(line, "\r") {
      var n := |line| - 1;
      assert line[n..][0] == '\r';
      assert line == line[..n] + ['\r'];
      TrimDropsLast(line[..n], '\r');
    }
  }

  lemma {:induction false} RunIgnoresCRs(st: Parser, lines: seq<string>)
    requires st.Valid()
    ensures Run(st, DropCRs(lines)) == Run(st, lines)
    decreases |lines|
  {
    if lines != [] {
      StepIgnoresCR(st, lines[0]);
      RunIgnoresCRs(Step(st, lines[0]), lines[1..]);
      assert DropCRs(lines)[1..] == DropCRs(lines[1..]);
    }
  }

  lemma {:induction false} RunConcat(st: Parser, a: seq<string>, b: seq<string>)
    requires st.Valid()
    ensures Run(st, a + b) == Run(Run(st, a), b)
    decreases |a|
  {
    if a == [] {
      assert a + b == b;
    } else {
      assert (a + b)[0] == a[0] && (a + b)[1..] == a[1..] + b;
      RunConcat(Step(st, a[0]), a[1..], b);
    }
  }

  /** Parsing terminated lines runs the state machine over those lines. */
  lemma ParseOfLines(lines: seq<string>)
    requires Pieces(lines, '\n')
    ensures Parse(Terminated(lines, '\n')) == Run(START, lines).sections
  {
    SplitTerminated(lines, '\n');
    assert (lines + [""])[..|lines|] == lines;
    RunIgnoresCRs(START, lines);
  }

  /** Parsing any text runs the state machine over what lies between its line ends. */
  lemma ParseOfText(text: string)
    ensures Parse(text) == Run(START, Split(text, '\n')).sections
  {
    var pieces := Split(text, '\n');
    var last := |pieces| - 1;
    RunIgnoresCRs(START, pieces);
    RunIgnoresCRs(START, pieces[..last]);
    if pieces[last] == "" {
      assert pieces == pieces[..last] + [""];
      RunConcat(START, pieces[..last], [""]);
      RunOfSkippable(Run(START, pieces[..last]), "");
    }
  }

  lemma RunOfSkippable(st: Parser, noise: string)
    requires st.Valid() && Skippable(TrimSpace(noise))
    ensures Run(st, [noise]) == st
  {
    assert [noise][1..] == [];
  }

  /** Parsing joined texts runs over the one and then over the other. */
  lemma ParseOfJoined(a: string, b: string)
    ensures Parse(a + "\n" + b) == Run(Run(START, Split(a, '\n')), Split(b, '\n')).sections
  {
    SplitJoined(a, '\n', b);
    ParseOfText(a + "\n" + b);
    RunConcat(START, Split(a, '\n'), Split(b, '\n'));
  }

  /**
   A blank or comment line changes nothing, wherever it is put into whatever text: between two
   lines, at the start, or at the end without a line end of its own.
   */
  lemma NoiseIsIgnored(before: string, noise: string, after: string)
    requires Skippable(TrimSpace(noise)) && '\n' !in noise
    ensures Parse(before + "\n" + (noise + "\n" + after)) == Parse(before + "\n" + after)
    ensures Parse(noise + "\n" + after) == Parse(after)
    ensures Parse(before + "\n" + noise) == Parse(before)
  {
    var st := Run(START, Split(before, '\n'));
    SplitPiece(noise, '\n');
    RunOfSkippable(st, noise);
    RunOfSkippable(START, noise);

    ParseOfJoined(before, noise + "\n" + after);
    ParseOfJoined(before, after);
    SplitJoined(noise, '\n', after);
    RunConcat(st, [noise], Split(after, '\n'));

    ParseOfJoined(noise, after);
    ParseOfText(after);

    ParseOfJoined(before, noise);
    ParseOfText(before);
  }

  // ---------------------------------------------------------------- one printed line

  function SkipLeft(s: string): string {
    if s != "" && IsSpace(s[0]) then SkipLeft(s[1..]) else s
  }

  function SkipRight(s: string): string
    decreases |s|
  {
    if s != "" && IsSpace(s[|s| - 1]) then SkipRight(s[..|s| - 1]) else s
  }

  lemma {:induction false} TrimAroundEq(a: string, b: string)
    ensures TrimSpace(a + "=" + b) == SkipLeft(a) + "=" + SkipRight(b)
    decreases |a| + |b|
  {
    var t := a + "=" + b;
    if a != "" && IsSpace(a[0]) {
      assert t[0] == a[0] && t[1..] == a[1..] + "=" + b;
      TrimAroundEq(a[1..], b);
    } else if b != "" && IsSpace(b[|b| - 1]) {
      assert t[|t| - 1] == b[|b| - 1] && t[..|t| - 1] == a + "=" + b[..|b| - 1];
      assert t[0] == if a == "" then '=' else a[0];
      TrimAroundEq(a, b[..|b| - 1]);
    } else {
      assert t[0] == if a == "" then '=' else a[0];
      assert t[|t| - 1] == if b == "" then '=' else b[|b| - 1];
    }
  }

  /** Skipping the padding of a tight text on one side leaves the rest of it to trim. */
  lemma {:induction false} SkipLeftPadded(left: string, s: string, right: string)
    requires Blank(left) && Blank(right) && Tight(s, IsSpace)
    ensures SkipLeft(left + s + right) == if s == "" then "" else s + right
    decreases |left| + |right|
  {
    var t := left + s + right;
    if left != "" {
      assert t[0] == left[0] && t[1..] == left[1..] + s + right;
      SkipLeftPadded(left[1..], s, right);
    } else if s == "" && right != "" {
      assert t[0] == right[0] && t[1..] == "" + s + right[1..];
      SkipLeftPadded("", s, right[1..]);
    } else if s != "" {
      assert t[0] == s[0] && t == s + right;
    }
  }

  lemma {:induction false} SkipRightPadded(left: string, s: string, right: string)
    requires Blank(left) && Blank(right) && Tight(s, IsSpace)
    ensures SkipRight(left + s + right) == if s == "" then "" else left + s
    decreases |left| + |right|
  {
    var t := left + s + right;
    if right != "" {
      assert t[|t| - 1] == right[|right| - 1] && t[..|t| - 1] == left + s + right[..|right| - 1];
      SkipRightPadded(left, s, right[..|right| - 1]);
    } else if s == "" && left != "" {
      assert t == left && t[|t| - 1] == left[|left| - 1] && t[..|t| - 1] == left[..|left| - 1] + s + "";
      SkipRightPadded(left[..|left| - 1], s, "");
    } else if s != "" {
      assert t == left + s && t[|t| - 1] == s[|s| - 1];
    }
  }

  lemma IndexOfEqAt(a: string, b: string)
    requires '=' !in a
    ensures IndexOfEq(a + "=" + b) == |a|
  {
    var t := a + "=" + b;
    assert t[|a|] == '=';
    assert forall j | 0 <= j < |a| :: t[j] == a[j];
  }

  function Quoted(e: Entry): string { e.open + e.value + e.close }

  /** What trimming leaves in front of the '=' and behind it. */
  function Before(e: Entry): string { if e.key == "" then "" else e.key + e.gap }
  function After(e: Entry): string { if Quoted(e) == "" then "" else e.gap' + Quoted(e) }

  lemma EntryTrimmed(e: Entry)
    requires EntryOk(e)
    ensures TrimSpace(EntryLine(e)) == Before(e) + "=" + After(e)
  {
    assert Right(e) == e.gap' + Quoted(e) + e.trail;
    TrimAroundEq(Left(e), Right(e));
    SkipLeftPadded(e.indent, e.key, e.gap);
    SkipRightPadded(e.gap', Quoted(e), e.trail);
  }

  lemma EdgesOfEntry(e: Entry)
    requires EntryOk(e)
    ensures var line := Before(e) + "=" + After(e);
      && line[0] == (if e.key == "" then '=' else e.key[0])
      && line[|line| - 1] == (if Quoted(e) == "" then '=' else Quoted(e)[|Quoted(e)| - 1])
  {
  }

  lemma EndsIn(s: string, c: char)
    requires s != ""
    ensures HasSuffix(s, [c]) <==> s[|s| - 1] == c
    ensures HasPrefix(s, [c]) <==> s[0] == c
  {
    assert s[|s| - 1..] == [s[|s| - 1]];
  }

  lemma EntryNotMistaken(e: Entry)
    requires EntryOk(e)
    ensures var line := Before(e) + "=" + After(e); !Skippable(line) && !IsHeader(line)
  {
    var line, q := Before(e) + "=" + After(e), Quoted(e);
    EdgesOfEntry(e);
    EndsIn(line, '#');
    EndsIn(line, ';');
    EndsIn(line, '[');
    EndsIn(line, ']');
    if q != "" {
      EndsIn(q, ']');
    }
    if e.key != "" {
      EndsIn(e.key, '[');
      EndsIn(e.key, '#');
      EndsIn(e.key, ';');
    }
  }

  lemma EntryParts(e: Entry)
    requires EntryOk(e)
    ensures '=' !in Before(e)
    ensures TrimSpace(Before(e)) == e.key
    ensures TrimFunc(TrimSpace(After(e)), IsQuote) == e.value
  {
    assert forall c | c in e.gap :: IsSpace(c);
    var behind := if e.key == "" then "" else e.gap;
    assert Before(e) == "" + e.key + behind;
    TrimPadded("", e.key, behind, IsSpace);
    var ahead := if Quoted(e) == "" then "" else e.gap';
    assert After(e) == ahead + Quoted(e) + "";
    TrimPadded(ahead, Quoted(e), "", IsSpace);
    TrimPadded(e.open, e.value, e.close, IsQuote);
  }

  lemma EntryStep(st: Parser, e: Entry)
    requires st.Valid() && st.section != "" && EntryOk(e)
    ensures Step(st, EntryLine(e)) == st.Set(e.key, e.value)
  {
    var a, b := Before(e), After(e);
    EntryTrimmed(e);
    EntryNotMistaken(e);
    EntryParts(e);
    IndexOfEqAt(a, b);
    assert (a + "=" + b)[..|a|] == a && (a + "=" + b)[|a| + 1..] == b;
  }

  lemma HeaderStep(st: Parser, s: Section)
    requires st.Valid() && SectionOk(s)
    ensures Step(st, HeaderLine(s)) == st.Open(s.name)
  {
    var line := "[" + s.gap + s.name + s.gap' + "]";
    assert HeaderLine(s) == s.indent + line + s.trail;
    TrimPadded(s.indent, line, s.trail, IsSpace);
    assert line[|line| - 1..] == "]";
    assert line[1..|line| - 1] == s.gap + s.name + s.gap';
    TrimPadded(s.gap, s.name, s.gap', IsSpace);
  }

  // ---------------------------------------------------------------- the round trip

  /** Reading entries changes the current section only, to the last values they assign. */
  ghost predicate ReadsEntries(st: Parser, es: seq<Entry>, r: Parser) {
    && r.section == st.section
    && r.sections.Keys == st.sections.Keys
    && (forall n, k | n != st.section :: Lookup(r.sections, n, k) == Lookup(st.sections, n, k))
    && forall k :: Lookup(r.sections, st.section, k)
                   == if LastIn(es, k).Some? then LastIn(es, k) else Lookup(st.sections, st.section, k)
  }

  lemma ReadsEntryThen(st: Parser, es: seq<Entry>, r: Parser)
    requires st.Valid() && st.section != "" && es != []
    requires ReadsEntries(st.Set(es[0].key, es[0].value), es[1..], r)
    ensures ReadsEntries(st, es, r)
  {
    var mid := st.Set(es[0].key, es[0].value);
    forall n, k | n != st.section ensures Lookup(r.sections, n, k) == Lookup(st.sections, n, k) {
      assert Lookup(mid.sections, n, k) == Lookup(st.sections, n, k);
    }
    forall k ensures Lookup(r.sections, st.section, k)
                     == if LastIn(es, k).Some? then LastIn(es, k) else Lookup(st.sections, st.section, k) {
      assert Lookup(mid.sections, st.section, k)
          == if es[0].key == k then Some(es[0].value) else Lookup(st.sections, st.section, k);
    }
  }

  lemma RunFirst(st: Parser, line: string, lines: seq<string>)
    requires st.Valid()
    ensures Run(st, [line] + lines) == Run(Step(st, line), lines)
  {
    assert ([line] + lines)[1..] == lines;
  }

  lemma {:induction false} RunEntries(st: Parser, es: seq<Entry>)
    requires st.Valid() && st.section != ""
    requires forall i | 0 <= i < |es| :: EntryOk(es[i])
    ensures ReadsEntries(st, es, Run(st, EntryLines(es)))
    decreases |es|
  {
    if es != [] {
      var mid := st.Set(es[0].key, es[0].value);
      EntryStep(st, es[0]);
      RunFirst(st, EntryLine(es[0]), EntryLines(es[1..]));
      RunEntries(mid, es[1..]);
      ReadsEntryThen(st, es, Run(mid, EntryLines(es[1..])));
    }
  }

  function Names(doc: seq<Section>): set<string> {
    set s | s in doc :: s.name
  }

  ghost predicate DocumentOk(doc: seq<Section>) {
    forall i | 0 <= i < |doc| :: SectionOk(doc[i])
  }

  /** What a key holds after a document has been read on top of `before`. */
  function ValueAfter(before: Sections, doc: seq<Section>, name: string, key: string): Option<string> {
    var v := Last(doc, name, key);
    if v.Some? then v else Lookup(before, name, key)
  }

  ghost predicate Reads(before: Sections, doc: seq<Section>, after: Sections) {
    && after.Keys == before.Keys + Names(doc)
    && forall n, k :: Lookup(after, n, k) == ValueAfter(before, doc, n, k)
  }

  lemma ReadsOne(before: Sections, st: Parser, s: Section, r: Parser)
    requires s.name != "" && st == Parser("", before).Open(s.name)
    requires ReadsEntries(st, s.entries, r)
    ensures Reads(before, [s], r.sections)
  {
    assert Names([s]) == {s.name};
    forall n, k ensures Lookup(r.sections, n, k) == ValueAfter(before, [s], n, k) {
      assert Lookup(st.sections, n, k) == Lookup(before, n, k);
      assert Last([s], n, k) == if s.name == n then LastIn(s.entries, k) else None by {
        assert Last([s][1..], n, k) == None;
      }
    }
  }

  lemma ReadsThen(before: Sections, doc: seq<Section>, mid: Sections, after: Sections)
    requires doc != []
    requires Reads(before, [doc[0]], mid) && Reads(mid, doc[1..], after)
    ensures Reads(before, doc, after)
  {
    assert doc == [doc[0]] + doc[1..];
    assert Names(doc) == Names([doc[0]]) + Names(doc[1..]);
    forall n, k ensures Lookup(after, n, k) == ValueAfter(before, doc, n, k) {
      assert Last([doc[0]][1..], n, k) == None;
      assert Lookup(mid, n, k) == ValueAfter(before, [doc[0]], n, k);
    }
  }

  lemma RunSection(st: Parser, s: Section, rest: seq<string>)
    requires st.Valid() && SectionOk(s)
    ensures var mid := Run(st.Open(s.name), EntryLines(s.entries));
      && Run(st, [HeaderLine(s)] + EntryLines(s.entries) + rest) == Run(mid, rest)
      && Reads(st.sections, [s], mid.sections)
  {
    var inside, body := st.Open(s.name), EntryLines(s.entries);
    HeaderStep(st, s);
    RunFirst(st, HeaderLine(s), body + rest);
    assert [HeaderLine(s)] + body + rest == [HeaderLine(s)] + (body + rest);
    RunConcat(inside, body, rest);
    RunEntries(inside, s.entries);
    ReadsOne(st.sections, inside, s, Run(inside, body));
  }

  lemma {:induction false} RunDocument(st: Parser, doc: seq<Section>)
    requires st.Valid()
    requires DocumentOk(doc)
    ensures Reads(st.sections, doc, Run(st, Lines(doc)).sections)
    decreases |doc|
  {
    if doc != [] {
      var s := doc[0];
      var mid := Run(st.Open(s.name), EntryLines(s.entries));
      RunSection(st, s, Lines(doc[1..]));
      RunDocument(mid, doc[1..]);
      ReadsThen(st.sections, doc, mid.sections, Run(mid, Lines(doc[1..])).sections);
    }
  }

  lemma {:induction false} LinesHaveNoNewline(doc: seq<Section>)
    requires DocumentOk(doc)
    ensures Pieces(Lines(doc), '\n')
  {
    if doc != [] {
      LinesHaveNoNewline(doc[1..]);
      assert SectionOk(doc[0]);
      EntryLinesHaveNoNewline(doc[0].entries);
    }
  }

  lemma {:induction false} EntryLinesHaveNoNewline(es: seq<Entry>)
    requires forall i | 0 <= i < |es| :: EntryOk(es[i])
    ensures Pieces(EntryLines(es), '\n')
  {
    if es != [] {
      EntryLinesHaveNoNewline(es[1..]);
      var e := es[0];
      assert EntryOk(e);
      assert '\n' !in e.open && '\n' !in e.close;
    }
  }

  /**
   Printing any well-formed sections, in any layout and quoting, and parsing the text gives exactly
   the named sections, and for each key the last value the document assigns to it: reopened
   sections merge, and the last assignment wins.
   */
  lemma RoundTrip(doc: seq<Section>)
    requires DocumentOk(doc)
    ensures var m := Parse(Print(doc));
      && m.Keys == Names(doc)
      && forall n, k :: Lookup(m, n, k) == Last(doc, n, k)
  {
    LinesHaveNoNewline(doc);
    ParseOfLines(Lines(doc));
    RunDocument(START, doc);
  }

  /** Nested maps with the same sections and the same values are the same. */
  lemma SameLookups(m: Sections, m': Sections)
    requires m.Keys == m'.Keys
    requires forall n, k :: Lookup(m, n, k) == Lookup(m', n, k)
    ensures m == m'
  {
    forall n | n in m ensures m[n] == m'[n] {
      forall k ensures k in m[n] <==> k in m'[n]
               ensures k in m[n] ==> m[n][k] == m'[n][k] {
        assert Lookup(m, n, k) == Lookup(m', n, k);
      }
    }
  }

  /** Layout and quotes carry no meaning: documents that differ only there parse alike. */
  lemma LayoutIsIrrelevant(a: seq<Section>, b: seq<Section>)
    requires DocumentOk(a)
    requires DocumentOk(b)
    requires Names(a) == Names(b)
    requires forall n, k :: Last(a, n, k) == Last(b, n, k)
    ensures Parse(Print(a)) == Parse(Print(b))
  {
    RoundTrip(a);
    RoundTrip(b);
    forall n, k ensures Lookup(Parse(Print(a)), n, k) == Lookup(Parse(Print(b)), n, k) {
      assert Last(a, n, k) == Last(b, n, k);
    }
    SameLookups(Parse(Print(a)), Parse(Print(b)));
  }

  // ---------------------------------------------------------------- the driver's configuration

  const SECTION := "vCloud"
  const URL_KEY := "MGMT_URL"
  const TOKEN_KEY := "PROVIDER_TOKEN"

  datatype Config = Config(apiURL: string, providerToken: string)
  datatype LoadResult = Loaded(config: Config) | MissingSection | MissingKey(key: string)

  /** A setting that is missing or empty. */
  predicate Unset(setting: Option<string>) {
    setting.None? || setting.value == ""
  }

  /** LoadConfigFromFile on the contents of a readable file. */
  method LoadConfig(text: string) returns (r: LoadResult)
    ensures r == ConfigOf(Parse(text))
    ensures r == MissingSection <==> SECTION !in Parse(text)
    ensures r == MissingKey(URL_KEY) ==> Unset(Lookup(Parse(text), SECTION, URL_KEY))
    ensures r == MissingKey(TOKEN_KEY) ==> Unset(Lookup(Parse(text), SECTION, TOKEN_KEY))
    ensures r.Loaded? ==>
      && Lookup(Parse(text), SECTION, URL_KEY) == Some(r.config.apiURL) && r.config.apiURL != ""
      && Lookup(Parse(text), SECTION, TOKEN_KEY) == Some(r.config.providerToken) && r.config.providerToken != ""
  {
    var sections := ParseINIFile(text);
    if SECTION !in sections {
      return MissingSection;
    }
    var section := sections[SECTION];
    if URL_KEY !in section || section[URL_KEY] == "" {
      return MissingKey(URL_KEY);
    }
    if TOKEN_KEY !in section || section[TOKEN_KEY] == "" {
      return MissingKey(TOKEN_KEY);
    }
    return Loaded(Config(section[URL_KEY], section[TOKEN_KEY]));
  }

  function ConfigOf(m: Sections): LoadResult {
    var url, token := Lookup(m, SECTION, URL_KEY), Lookup(m, SECTION, TOKEN_KEY);
    if SECTION !in m then MissingSection
    else if Unset(url) then MissingKey(URL_KEY)
    else if Unset(token) then MissingKey(TOKEN_KEY)
    else Loaded(Config(url.value, token.value))
  }

  /** The configuration depends on the section and the two settings only. */
  lemma ConfigOfPrinted(doc: seq<Section>)
    requires DocumentOk(doc)
    ensures var m := Parse(Print(doc));
      && (SECTION in m <==> SECTION in Names(doc))
      && Lookup(m, SECTION, URL_KEY) == Last(doc, SECTION, URL_KEY)
      && Lookup(m, SECTION, TOKEN_KEY) == Last(doc, SECTION, TOKEN_KEY)
  {
    RoundTrip(doc);
  }

  /** A printed file that loads gives the last settings of its document, and they are not empty. */
  lemma LoadsLastSettings(doc: seq<Section>)
    requires DocumentOk(doc) && ConfigOf(Parse(Print(doc))).Loaded?
    ensures var config := ConfigOf(Parse(Print(doc))).config;
      && config.apiURL != "" && config.providerToken != ""
      && Last(doc, SECTION, URL_KEY) == Some(config.apiURL)
      && Last(doc, SECTION, TOKEN_KEY) == Some(config.providerToken)
  {
    ConfigOfPrinted(doc);
  }

  /** A printed file with both settings loads. */
  lemma SettingsLoad(doc: seq<Section>, config: Config)
    requires DocumentOk(doc) && config.apiURL != "" && config.providerToken != ""
    requires Last(doc, SECTION, URL_KEY) == Some(config.apiURL)
    requires Last(doc, SECTION, TOKEN_KEY) == Some(config.providerToken)
    ensures ConfigOf(Parse(Print(doc))) == Loaded(config)
  {
    ConfigOfPrinted(doc);
  }

  /** A printed file loads as a configuration exactly when its last settings say so. */
  lemma ConfigRoundTrip(doc: seq<Section>, config: Config)
    requires DocumentOk(doc)
    ensures ConfigOf(Parse(Print(doc))) == Loaded(config)
        <==> && config.apiURL != "" && config.providerToken != ""
             && Last(doc, "vCloud", "MGMT_URL") == Some(config.apiURL)
             && Last(doc, "vCloud", "PROVIDER_TOKEN") == Some(config.providerToken)
  {
    if ConfigOf(Parse(Print(doc))) == Loaded(config) {
      LoadsLastSettings(doc);
    } else if config.apiURL != "" && config.providerToken != ""
              && Last(doc, "vCloud", "MGMT_URL") == Some(config.apiURL) {
      if Last(doc, "vCloud", "PROVIDER_TOKEN") == Some(config.providerToken) {
        SettingsLoad(doc, config);
      }
    }
  }

  /**
   It fails for want of the section exactly when the document has none of that name, for want of the
   URL exactly when the section's last URL is missing or empty, and for want of the token exactly
   when only the token is.
   */
  lemma ConfigFailures(doc: seq<Section>)
    requires DocumentOk(doc)
    ensures var r, url, token := ConfigOf(Parse(Print(doc))), Last(doc, "vCloud", "MGMT_URL"), Last(doc, "vCloud", "PROVIDER_TOKEN");
      && (r == MissingSection <==> "vCloud" !in Names(doc))
      && (r == MissingKey("MGMT_URL") <==> "vCloud" in Names(doc) && Unset(url))
      && (r == MissingKey("PROVIDER_TOKEN") <==> "vCloud" in Names(doc) && !Unset(url) && Unset(token))
      && (r.MissingKey? ==> r.key in {URL_KEY, TOKEN_KEY})
  {
    ConfigOfPrinted(doc);
    assert URL_KEY != TOKEN_KEY by {
      assert URL_KEY[0] != TOKEN_KEY[0];
    }
  }
}
