/** The calibration worksheet: the printer of its concept sections, the parser of the filled sheet, and the
    round trip between them. The parser is a line scanner. */
module Worksheet {
  import opened Prelude
  import opened Text
  import opened CalibrationScore
  import opened CalibrationSample

  datatype Tier = T1 | T2 | T3

  /** The boxes a labeller has ticked in one section: none, one or several of each kind. */
  datatype Marks = Marks(tiers: set<Tier>, truths: set<Truth>)

  const TIERS := [T1, T2, T3]
  const TRUTHS := [True, Partial, False]

  const MARKER := "### Concept #"
  const DASH := " \U{2014} "
  const ID_LABEL := "**ID:**"
  const CATEGORY_LABEL := "**Category:**"
  const CONFIDENCE_LABEL := "**LLM confidence (current, suspect):**"
  const NOTES_LABEL := "**Notes:**"
  const BLANK_NOTES := Underscores(53)

  function Underscores(n: nat): (s: string)
    ensures |s| == n && forall c | c in s :: c == '_'
  {
    if n == 0 then "" else "_" + Underscores(n - 1)
  }

  // ---------------------------------------------------------------------------------------
  // Printer
  // ---------------------------------------------------------------------------------------

  function Box(ticked: bool, name: string): string {
    "- [" + (if ticked then "x" else " ") + "] " + name
  }

  function TierText(t: Tier): string {
    match t
    case T1 => "T1" + DASH + "observed pattern; no enforcement"
    case T2 => "T2" + DASH + "documented + \U{2265}1 " + "enforcing mechanism" + " (test/lint/contract)"
    case T3 => "T3" + DASH + "codified in CI/types; " + "violations fail build"
  }

  function TruthText(t: Truth): string {
    match t
    case True => "TRUE" + DASH + "concept is accurate"
    case Partial => "PARTIAL" + DASH + "partially accurate " + "or mis-stated scope"
    case False => "FALSE" + DASH + "wrong or generic boilerplate"
  }

  function HeaderLine(idx: nat, c: Concept): string {
    MARKER + NatText(idx) + DASH + c.title[..Min(80, |c.title|)]
  }

  function Quoted(value: string): string { "`" + value + "`" }

  function AnchorLines(anchors: seq<string>, n: nat): seq<string>
    requires n <= |anchors|
  {
    if n == 0 then [] else AnchorLines(anchors, n - 1) + ["  - " + Quoted(anchors[n - 1])]
  }

  function Anchors(anchors: seq<string>): seq<string> {
    if anchors == [] then ["  - " + "(none)"]
    else if |anchors| <= 6 then AnchorLines(anchors, |anchors|)
    else AnchorLines(anchors, 6) + ["  - " + ("\U{2026} and " + NatText(|anchors| - 6) + " more")]
  }

  /** A labelled list item. */
  function Item(name: string, value: string): string { "- " + (name + (" " + value)) }

  function KeyLines(c: Concept): seq<string>
    requires c.confidence >= 0.0
  {
    [ "",
      Item(ID_LABEL, Quoted(c.id)),
      Item(CATEGORY_LABEL, Quoted(c.category)),
      Item(CONFIDENCE_LABEL, TwoDecimals(c.confidence)) ]
  }

  function TextLines(c: Concept): seq<string> {
    [ Item("**Title:**", c.title),
      Item("**Content:**", c.content),
      "- " + "**Anchors:**" ]
  }

  /** One box per option, the chosen ones ticked. */
  function Boxes<T(==)>(options: seq<T>, chosen: set<T>, text: T -> string): seq<string> {
    if options == [] then []
    else [Box(options[0] in chosen, text(options[0]))] + Boxes(options[1..], chosen, text)
  }

  function TierLines(m: Marks): seq<string> { Boxes(TIERS, m.tiers, TierText) }

  function TruthLines(m: Marks): seq<string> { Boxes(TRUTHS, m.truths, TruthText) }

  const TIER_HEADING := ["", "**Your tier (pick one):**"]
  const TRUTH_HEADING := ["", "**Truth label (pick one):**"]
  const SECTION_END := ["", NOTES_LABEL + " " + BLANK_NOTES, "", "---", ""]

  /** `render_concept` after its first line, with the given boxes ticked; the printer itself ticks none. */
  function BodyLines(c: Concept, m: Marks): seq<string>
    requires c.confidence >= 0.0
  {
    KeyLines(c) + TextLines(c) + Anchors(c.anchors) + TIER_HEADING + TierLines(m) + TRUTH_HEADING + TruthLines(m)
        + SECTION_END
  }

  /** `render_concept`, line by line, with the given boxes ticked. */
  function Section(idx: nat, c: Concept, m: Marks): seq<string>
    requires c.confidence >= 0.0
  {
    [HeaderLine(idx, c)] + BodyLines(c, m)
  }

  /** The concept sections, numbered from `first`. */
  function Sections(concepts: seq<Concept>, marks: seq<Marks>, first: nat): seq<string>
    requires |concepts| == |marks| && forall c | c in concepts :: c.confidence >= 0.0
  {
    if concepts == [] then []
    else Section(first, concepts[0], marks[0]) + Sections(concepts[1..], marks[1..], first + 1)
  }

  function Flat(parts: seq<seq<string>>): seq<string> {
    if parts == [] then [] else parts[0] + Flat(parts[1..])
  }

  /** The parts are the first sections, in order. */
  ghost predicate Numbered(parts: seq<seq<string>>, concepts: seq<Concept>, marks: seq<Marks>, first: nat)
    requires |parts| <= |concepts| == |marks| && forall c | c in concepts :: c.confidence >= 0.0
  {
    forall i, n: nat | 0 <= i < |parts| && n == first + i :: parts[i] == Section(n, concepts[i], marks[i])
  }

  lemma OneMoreNumbered(parts: seq<seq<string>>, concepts: seq<Concept>, marks: seq<Marks>, part: seq<string>)
    requires |parts| < |concepts| == |marks| && forall c | c in concepts :: c.confidence >= 0.0
    requires Numbered(parts, concepts, marks, 1) && part == Section(|parts| + 1, concepts[|parts|], marks[|parts|])
    ensures Numbered(parts + [part], concepts, marks, 1)
  {
  }

  lemma RestIsNumbered(parts: seq<seq<string>>, concepts: seq<Concept>, marks: seq<Marks>, first: nat)
    requires 0 < |parts| == |concepts| == |marks| && forall c | c in concepts :: c.confidence >= 0.0
    requires Numbered(parts, concepts, marks, first)
    ensures Numbered(parts[1..], concepts[1..], marks[1..], first + 1)
            && parts[0] == Section(first, concepts[0], marks[0])
  {
    forall i, n: nat | 0 <= i < |parts[1..]| && n == first + 1 + i
      ensures parts[1..][i] == Section(n, concepts[1..][i], marks[1..][i])
    {
      assert parts[1..][i] == parts[i + 1];
    }
  }

  lemma {:induction false} FlatIsSections(parts: seq<seq<string>>, concepts: seq<Concept>, marks: seq<Marks>,
                                          first: nat)
    requires |parts| == |concepts| == |marks| && forall c | c in concepts :: c.confidence >= 0.0
    requires Numbered(parts, concepts, marks, first)
    ensures Flat(parts) == Sections(concepts, marks, first)
  {
    if parts != [] {
      RestIsNumbered(parts, concepts, marks, first);
      FlatIsSections(parts[1..], concepts[1..], marks[1..], first + 1);
    }
  }

  /** The section loop of `render_worksheet` and its join, with the given boxes ticked. */
  method RenderSections(concepts: seq<Concept>, marks: seq<Marks>) returns (lines: seq<string>)
    requires |concepts| == |marks| && forall c | c in concepts :: c.confidence >= 0.0
    ensures lines == Sections(concepts, marks, 1)
  {
    var parts: seq<seq<string>> := [];
    for i := 0 to |concepts|
      invariant |parts| == i && Numbered(parts, concepts, marks, 1)
    {
      var part := Section(i + 1, concepts[i], marks[i]);
      OneMoreNumbered(parts, concepts, marks, part);
      parts := parts + [part];
    }
    FlatIsSections(parts, concepts, marks, 1);
    lines := Flat(parts);
  }

  // ---------------------------------------------------------------------------------------
  // Parser
  // ---------------------------------------------------------------------------------------

  function IndexOfChar(s: string, c: char): (r: Option<nat>)
    ensures r.Some? ==> r.value < |s| && s[r.value] == c
  {
    if s == "" then None
    else if s[0] == c then Some(0)
    else match IndexOfChar(s[1..], c) case None => None case Some(i) => Some(i + 1)
  }

  /** A non-empty text between backticks, after optional spaces. */
  function BacktickValue(s: string): Option<string> {
    var t := SkipSpaces(s);
    if t == "" || t[0] != '`' then None
    else
      match IndexOfChar(t[1..], '`')
      case None => None
      case Some(i) => if i == 0 then None else Some(t[1..][..i])
  }

  /** The leftmost labelled backtick value of a line. */
  function FieldIn(line: string, name: string): Option<string> {
    if name <= line && BacktickValue(line[|name|..]).Some? then BacktickValue(line[|name|..])
    else if line == "" then None
    else FieldIn(line[1..], name)
  }

  /** The leftmost labelled run of digits and dots of a line. */
  function NumberIn(line: string, name: string): Option<string> {
    if name <= line && TakeNumeric(SkipSpaces(line[|name|..]), true) != ""
        then Some(TakeNumeric(SkipSpaces(line[|name|..]), true))
    else if line == "" then None
    else NumberIn(line[1..], name)
  }

  /** The text after the leftmost notes label of a line, if there is any. */
  function NotesIn(line: string): Option<string> {
    if NOTES_LABEL <= line && SkipSpaces(line[|NOTES_LABEL|..]) != "" then Some(Strip(line[|NOTES_LABEL|..]))
    else if line == "" then None
    else NotesIn(line[1..])
  }

  function FirstField(lines: seq<string>, name: string): Option<string> {
    if lines == [] then None
    else if FieldIn(lines[0], name).Some? then FieldIn(lines[0], name)
    else FirstField(lines[1..], name)
  }

  function FirstNumber(lines: seq<string>, name: string): Option<string> {
    if lines == [] then None
    else if NumberIn(lines[0], name).Some? then NumberIn(lines[0], name)
    else FirstNumber(lines[1..], name)
  }

  function FirstNotes(lines: seq<string>): Option<string> {
    if lines == [] then None
    else if NotesIn(lines[0]).Some? then NotesIn(lines[0])
    else FirstNotes(lines[1..])
  }

  /** A checkbox line: whether it is ticked, and its label. */
  function Checkbox(line: string): Option<(bool, string)> {
    var a := SkipSpaces(line);
    if a == "" || a[0] != '-' then None
    else
      var b := SkipSpaces(a[1..]);
      if b == "" || b[0] != '[' then None
      else
        match IndexOfChar(b[1..], ']')
        case None => None
        case Some(i) =>
          var inner, rest := b[1..][..i], b[1..][i + 1..];
          if rest == "" || !IsSpace(rest[0]) then None
          else if Strip(inner) == "x" || Strip(inner) == "X" then Some((true, TrimEnd(SkipSpaces(rest))))
          else if Strip(inner) == "" && ' ' in inner then Some((false, TrimEnd(SkipSpaces(rest))))
          else None
  }

  function TierNamed(name: string): Option<Tier> {
    if "T1" <= name then Some(T1) else if "T2" <= name then Some(T2) else if "T3" <= name then Some(T3) else None
  }

  function TruthNamed(name: string): Option<Truth> {
    if "TRUE" <= name then Some(True) else if "PARTIAL" <= name then Some(Partial)
    else if "FALSE" <= name then Some(False) else None
  }

  /** The candidates whose boxes are ticked, in line order. */
  function TickedTiers(lines: seq<string>): seq<Tier> {
    if lines == [] then []
    else
      var before, box := TickedTiers(lines[..|lines| - 1]), Checkbox(lines[|lines| - 1]);
      if box.Some? && box.value.0 && TierNamed(box.value.1).Some? then before + [TierNamed(box.value.1).value]
          else before
  }

  function TickedTruths(lines: seq<string>): seq<Truth> {
    if lines == [] then []
    else
      var before, box := TickedTruths(lines[..|lines| - 1]), Checkbox(lines[|lines| - 1]);
      if box.Some? && box.value.0 && TruthNamed(box.value.1).Some? then before + [TruthNamed(box.value.1).value]
          else before
  }

  function FirstOf<T>(s: seq<T>): Option<T> {
    if s == [] then None else Some(s[0])
  }

  datatype Parsed = Parsed(idx: nat, id: string, title: string, category: string, confidence: real,
                           tier: Option<Tier>, truth: Option<Truth>, notes: string, tierWarning: bool,
                               truthWarning: bool)

  function ParseBody(idx: nat, title: string, body: seq<string>): Parsed {
    var id, category, number, notes := FirstField(body, ID_LABEL), FirstField(body, CATEGORY_LABEL),
        FirstNumber(body, CONFIDENCE_LABEL), FirstNotes(body);
    var tiers, truths := TickedTiers(body), TickedTruths(body);
    Parsed(idx,
           if id.Some? then id.value else "_unknown_" + NatText(idx),
           Strip(title),
           if category.Some? then category.value else "?",
           if number.Some? && FloatValue(number.value).Some? then FloatValue(number.value).value else 0.0,
           FirstOf(tiers), FirstOf(truths),
           if notes.Some? && !("___" <= notes.value) then notes.value else "",
           |tiers| > 1, |truths| > 1)
  }

  /** The leftmost section header of a line: its number and its title. */
  function HeaderIn(line: string): Option<(nat, string)> {
    if MARKER <= line && HeaderTail(line[|MARKER|..]).Some? then HeaderTail(line[|MARKER|..])
    else if line == "" then None
    else HeaderIn(line[1..])
  }

  function HeaderTail(s: string): Option<(nat, string)> {
    var digits := TakeNumeric(s, false);
    var rest := s[|digits|..];
    if digits != "" && DASH < rest then Some((NatValue(digits), rest[|DASH|..])) else None
  }

  /** The lines up to the next one that starts with the section marker. */
  function TakeBody(lines: seq<string>): (r: seq<string>)
    ensures r <= lines
  {
    if lines == [] || MARKER <= lines[0] then [] else [lines[0]] + TakeBody(lines[1..])
  }

  /** `parse_worksheet` over the lines of the file. */
  function ParseLines(lines: seq<string>): seq<Parsed> {
    if |lines| <= 1 then []
    else
      match HeaderIn(lines[0])
      case None => ParseLines(lines[1..])
      case Some((idx, title)) =>
        var body := TakeBody(lines[1..]);
        [ParseBody(idx, title, body)] + ParseLines(lines[1 + |body|..])
  }

  lemma ParseUnfold(lines: seq<string>, idx: nat, title: string, body: seq<string>, rest: seq<string>)
    requires |lines| > 1 && HeaderIn(lines[0]) == Some((idx, title)) && TakeBody(lines[1..]) == body
             && lines[1 + |body|..] == rest
    ensures ParseLines(lines) == [ParseBody(idx, title, body)] + ParseLines(rest)
  {
  }

  lemma ParseSkips(lines: seq<string>)
    requires |lines| > 1 && HeaderIn(lines[0]).None?
    ensures ParseLines(lines) == ParseLines(lines[1..])
  {
  }

  /** One turn of the section loop: the section that starts at line `i`, if one does, and the next line to look at. */
  method ParseSection(lines: seq<string>, i: nat) returns (section: seq<Parsed>, next: nat)
    requires i + 1 < |lines|
    ensures i < next <= |lines|
    ensures ParseLines(lines[i..]) == section + ParseLines(lines[next..])
  {
    SuffixOfSuffix(lines, i, 1);
    var header := HeaderIn(lines[i]);
    if header.None? {
      ParseSkips(lines[i..]);
      return [], i + 1;
    }
    var body := TakeBody(lines[i + 1..]);
    SuffixOfSuffix(lines, i, 1 + |body|);
    ParseUnfold(lines[i..], header.value.0, header.value.1, body, lines[i + 1 + |body|..]);
    return [ParseBody(header.value.0, header.value.1, body)], i + 1 + |body|;
  }

  /** The section loop of the parser. */
  method ParseWorksheet(text: string) returns (out: seq<Parsed>)
    ensures out == ParseLines(Lines(text))
  {
    var lines := Lines(text);
    out := [];
    var i := 0;
    assert lines[0..] == lines;
    while i + 1 < |lines|
      invariant i <= |lines|
      invariant out + ParseLines(lines[i..]) == ParseLines(lines)
    {
      var section, next := ParseSection(lines, i);
      Associative(out, section, ParseLines(lines[next..]));
      out, i := out + section, next;
    }
  }
}
