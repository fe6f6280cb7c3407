/** Parsing a printed worksheet gives the concepts and the ticked boxes back. */
module WorksheetProofs {
  import opened Prelude
  import opened Text
  import opened CalibrationScore
  import opened CalibrationSample
  import opened Worksheet

  // ---------------------------------------------------------------------------------------
  // Well-formed concepts
  // ---------------------------------------------------------------------------------------

  /** Single-line fields; the id and the category without backticks; no label of a later line embedded. */
  ghost predicate WellFormed(c: Concept) {
    && c.id != "" && c.category != "" && c.title != "" && c.confidence >= 0.0
    && '`' !in c.id && '`' !in c.category
    && SingleLine(c.id) && SingleLine(c.category) && SingleLine(c.title) && SingleLine(c.content)
    && !Occurs(CATEGORY_LABEL, c.id) && !Occurs(CONFIDENCE_LABEL, c.id) && !Occurs(CONFIDENCE_LABEL, c.category)
    && !Occurs(NOTES_LABEL, c.id) && !Occurs(NOTES_LABEL, c.category)
    && !Occurs(NOTES_LABEL, c.title) && !Occurs(NOTES_LABEL, c.content)
    && forall a | a in c.anchors :: SingleLine(a) && !Occurs(NOTES_LABEL, a)
  }

  // ---------------------------------------------------------------------------------------
  // Scanning for labels
  // ---------------------------------------------------------------------------------------

  lemma {:induction false} NoFieldWithoutLabel(line: string, name: string)
    requires !Occurs(name, line)
    ensures FieldIn(line, name).None?
  {
    if line != "" {
      NoFieldWithoutLabel(line[1..], name);
    }
  }

  lemma {:induction false} NoNumberWithoutLabel(line: string, name: string)
    requires !Occurs(name, line)
    ensures NumberIn(line, name).None?
  {
    if line != "" {
      NoNumberWithoutLabel(line[1..], name);
    }
  }

  lemma {:induction false} NoNotesWithoutLabel(line: string)
    requires !Occurs(NOTES_LABEL, line)
    ensures NotesIn(line).None?
  {
    if line != "" {
      NoNotesWithoutLabel(line[1..]);
    }
  }

  /** A text without one of the part's characters does not contain the part. */
  lemma {:induction false} MissingChar(part: string, s: string, c: char)
    requires c in part && c !in s
    ensures !Occurs(part, s)
  {
    if s != "" {
      MissingChar(part, s[1..], c);
    }
  }

  lemma {:induction false} CharFound(s: string, c: char, rest: string)
    requires c !in s
    ensures IndexOfChar(s + [c] + rest, c) == Some(|s|)
  {
    if s != "" {
      assert (s + [c] + rest)[1..] == s[1..] + [c] + rest;
      CharFound(s[1..], c, rest);
    }
  }

  lemma SkipOne(s: string)
    requires s != "" && !IsSpace(s[0])
    ensures SkipSpaces(" " + s) == SkipSpaces(s) == s
  {
    assert (" " + s)[1..] == s;
  }

  lemma BacktickRoundTrip(value: string)
    requires value != "" && '`' !in value
    ensures BacktickValue(" " + Quoted(value)) == Some(value)
  {
    SkipOne(Quoted(value));
    assert Quoted(value)[1..] == value + ['`'] + "";
    CharFound(value, '`', "");
    assert (value + ['`'] + "")[..|value|] == value;
  }

  /** The item from its label on, and after its label. */
  lemma ItemShape(name: string, value: string)
    requires name != "" && name[0] == '*'
    ensures var line := Item(name, value);
            && line[0] == '-' && line[1..] != "" && line[1..][0] == ' ' && line[1..][1..] == name + (" " + value)
    ensures (name + (" " + value))[|name|..] == " " + value
  {
  }

  /** A field line of the printer reads back its value. */
  lemma FieldRoundTrip(name: string, value: string)
    requires value != "" && '`' !in value && name != "" && name[0] == '*'
    ensures FieldIn(Item(name, Quoted(value)), name) == Some(value)
  {
    var line := Item(name, Quoted(value));
    ItemShape(name, Quoted(value));
    BacktickRoundTrip(value);
    assert FieldIn(line[1..][1..], name) == Some(value);
    assert FieldIn(line[1..], name) == FieldIn(line[1..][1..], name);
  }

  lemma NumberRoundTrip(name: string, number: string)
    requires number != "" && (forall c | c in number :: Numeric(c, true)) && name != "" && name[0] == '*'
    ensures NumberIn(Item(name, number), name) == Some(number)
  {
    var line := Item(name, number);
    ItemShape(name, number);
    assert Numeric(number[0], true);
    SkipOne(number);
    TakeNumericStops(number, "", true);
    assert number + "" == number;
    assert NumberIn(line[1..][1..], name) == Some(number);
    assert NumberIn(line[1..], name) == NumberIn(line[1..][1..], name);
  }

  lemma NoBlankNotes()
    ensures NotesIn(NOTES_LABEL + " " + BLANK_NOTES) == Some(BLANK_NOTES)
  {
    var line := NOTES_LABEL + " " + BLANK_NOTES;
    assert line[|NOTES_LABEL|..] == " " + BLANK_NOTES;
    assert BLANK_NOTES[0] in BLANK_NOTES && BLANK_NOTES[|BLANK_NOTES| - 1] in BLANK_NOTES;
    SkipOne(BLANK_NOTES);
  }

  // ---------------------------------------------------------------------------------------
  // Scanning line by line
  // ---------------------------------------------------------------------------------------

  lemma {:induction false} FieldPast(before: seq<string>, after: seq<string>, name: string)
    requires forall l | l in before :: FieldIn(l, name).None?
    ensures FirstField(before + after, name) == FirstField(after, name)
  {
    if before == [] {
      assert before + after == after;
    } else {
      assert (before + after)[1..] == before[1..] + after;
      FieldPast(before[1..], after, name);
    }
  }

  lemma {:induction false} NumberPast(before: seq<string>, after: seq<string>, name: string)
    requires forall l | l in before :: NumberIn(l, name).None?
    ensures FirstNumber(before + after, name) == FirstNumber(after, name)
  {
    if before == [] {
      assert before + after == after;
    } else {
      assert (before + after)[1..] == before[1..] + after;
      NumberPast(before[1..], after, name);
    }
  }

  lemma {:induction false} NotesPast(before: seq<string>, after: seq<string>)
    requires forall l | l in before :: NotesIn(l).None?
    ensures FirstNotes(before + after) == FirstNotes(after)
  {
    if before == [] {
      assert before + after == after;
    } else {
      assert (before + after)[1..] == before[1..] + after;
      NotesPast(before[1..], after);
    }
  }

  lemma TickedAppend(a: seq<string>, b: seq<string>)
    ensures TickedTiers(a + b) == TickedTiers(a) + TickedTiers(b)
    ensures TickedTruths(a + b) == TickedTruths(a) + TickedTruths(b)
  {
    TickedTiersAppend(a, b);
    TickedTruthsAppend(a, b);
  }

  lemma {:induction false} TickedTiersAppend(a: seq<string>, b: seq<string>)
    ensures TickedTiers(a + b) == TickedTiers(a) + TickedTiers(b)
  {
    if b == [] {
      assert a + b == a;
    } else {
      assert (a + b)[..|a + b| - 1] == a + b[..|b| - 1];
      TickedTiersAppend(a, b[..|b| - 1]);
    }
  }

  lemma {:induction false} TickedTruthsAppend(a: seq<string>, b: seq<string>)
    ensures TickedTruths(a + b) == TickedTruths(a) + TickedTruths(b)
  {
    if b == [] {
      assert a + b == a;
    } else {
      assert (a + b)[..|a + b| - 1] == a + b[..|b| - 1];
      TickedTruthsAppend(a, b[..|b| - 1]);
    }
  }

  lemma {:induction false} NothingTicked(lines: seq<string>)
    requires forall l | l in lines :: Checkbox(l).None?
    ensures TickedTiers(lines) == [] && TickedTruths(lines) == []
  {
    if lines != [] {
      NothingTicked(lines[..|lines| - 1]);
    }
  }

  // ---------------------------------------------------------------------------------------
  // Checkboxes
  // ---------------------------------------------------------------------------------------

  lemma BoxParts(inner: string, text: string)
    requires ']' !in inner
    ensures var b := "[" + inner + "] " + text;
            IndexOfChar(b[1..], ']') == Some(|inner|) && b[1..][..|inner|] == inner
                && b[1..][|inner| + 1..] == " " + text
  {
    var b := "[" + inner + "] " + text;
    assert b[1..] == inner + [']'] + (" " + text);
    CharFound(inner, ']', " " + text);
  }

  /** What stands between the brackets. */
  function Tick(ticked: bool): string { if ticked then "x" else " " }

  lemma TickReads(ticked: bool)
    ensures Strip(Tick(ticked)) == (if ticked then "x" else "") && ']' !in Tick(ticked)
            && (!ticked ==> ' ' in Tick(ticked))
  {
    if !ticked {
      assert SkipSpaces(" ") == SkipSpaces(" "[1..]) == "";
    }
  }

  lemma BoxRoundTrip(ticked: bool, text: string)
    requires text != "" && !IsSpace(text[0]) && !IsSpace(text[|text| - 1])
    ensures Checkbox(Box(ticked, text)) == Some((ticked, text))
  {
    var bracket := "[" + Tick(ticked) + "] " + text;
    assert Box(ticked, text)[1..] == " " + bracket;
    SkipOne(bracket);
    TickReads(ticked);
    BoxParts(Tick(ticked), text);
    LabelReads(text);
  }

  lemma LabelReads(text: string)
    requires text != "" && !IsSpace(text[0]) && !IsSpace(text[|text| - 1])
    ensures (" " + text)[0] == ' ' && IsSpace(' ') && TrimEnd(SkipSpaces(" " + text)) == text
  {
    SkipOne(text);
  }

  /** The chosen options in their printed order. */
  function Picked<T(==)>(options: seq<T>, chosen: set<T>): seq<T> {
    if options == [] then []
    else (if options[0] in chosen then [options[0]] else []) + Picked(options[1..], chosen)
  }

  lemma TierTextShape(t: Tier)
    ensures var s := TierText(t); s != "" && !IsSpace(s[0]) && !IsSpace(s[|s| - 1])
    ensures TierNamed(TierText(t)) == Some(t) && TruthNamed(TierText(t)) == None
  {
    var s := TierText(t);
    match t
    case T1 => assert s[0] == 'T' && s[1] == '1' && s[|s| - 1] == 't';
    case T2 => assert s[0] == 'T' && s[1] == '2' && s[|s| - 1] == ')';
    case T3 => assert s[0] == 'T' && s[1] == '3' && s[|s| - 1] == 'd';
  }

  lemma TruthTextShape(t: Truth)
    ensures var s := TruthText(t); s != "" && !IsSpace(s[0]) && !IsSpace(s[|s| - 1])
    ensures TruthNamed(TruthText(t)) == Some(t) && TierNamed(TruthText(t)) == None
  {
    var s := TruthText(t);
    match t
    case True => assert s[0] == 'T' && s[1] == 'R' && s[2] == 'U' && s[3] == 'E' && s[|s| - 1] == 'e';
    case Partial => assert s[0] == 'P' && s[1] == 'A' && s[|s| - 1] == 'e';
    case False => assert s[0] == 'F' && s[1] == 'A' && s[|s| - 1] == 'e';
  }

  lemma TickedTierBox(ticked: bool, t: Tier)
    ensures TickedTiers([Box(ticked, TierText(t))]) == (if ticked then [t] else [])
            && TickedTruths([Box(ticked, TierText(t))]) == []
  {
    var line := Box(ticked, TierText(t));
    TierTextShape(t);
    BoxRoundTrip(ticked, TierText(t));
    assert [line][..0] == [];
  }

  lemma TickedTruthBox(ticked: bool, t: Truth)
    ensures TickedTruths([Box(ticked, TruthText(t))]) == (if ticked then [t] else [])
            && TickedTiers([Box(ticked, TruthText(t))]) == []
  {
    var line := Box(ticked, TruthText(t));
    TruthTextShape(t);
    BoxRoundTrip(ticked, TruthText(t));
    assert [line][..0] == [];
  }

  lemma {:induction false} TickedTierBoxes(options: seq<Tier>, chosen: set<Tier>)
    ensures TickedTiers(Boxes(options, chosen, TierText)) == Picked(options, chosen)
    ensures TickedTruths(Boxes(options, chosen, TierText)) == []
  {
    if options != [] {
      TickedTierBoxes(options[1..], chosen);
      TickedTierBox(options[0] in chosen, options[0]);
      TickedAppend([Box(options[0] in chosen, TierText(options[0]))], Boxes(options[1..], chosen, TierText));
    }
  }

  lemma {:induction false} TickedTruthBoxes(options: seq<Truth>, chosen: set<Truth>)
    ensures TickedTruths(Boxes(options, chosen, TruthText)) == Picked(options, chosen)
    ensures TickedTiers(Boxes(options, chosen, TruthText)) == []
  {
    if options != [] {
      TickedTruthBoxes(options[1..], chosen);
      TickedTruthBox(options[0] in chosen, options[0]);
      TickedAppend([Box(options[0] in chosen, TruthText(options[0]))], Boxes(options[1..], chosen, TruthText));
    }
  }

  // ---------------------------------------------------------------------------------------
  // The lines of a section
  // ---------------------------------------------------------------------------------------

  /** A line that the section scanner, the checkbox scanner and the notes scanner all pass over. */
  ghost predicate Inert(line: string) {
    && SingleLine(line) && !(MARKER <= line)
    && Checkbox(line).None? && NotesIn(line).None?
  }

  /** Neither a control character nor the first letter of the notes label. */
  predicate Clean(s: string) { forall c | c in s :: ' ' <= c && c != 'N' }

  lemma FlatLine(line: string)
    requires line != "" ==> !IsSpace(line[0]) && line[0] != '-' && line[0] != '#'
    requires Clean(line)
    ensures Inert(line)
  {
    MissingChar(NOTES_LABEL, line, 'N');
    NoNotesWithoutLabel(line);
  }

  /** A list item that is not a checkbox. */
  lemma ItemLine(rest: string)
    requires rest != "" && !IsSpace(rest[0]) && rest[0] != '[' && SingleLine(rest)
    requires !Occurs(NOTES_LABEL, "- " + rest)
    ensures Inert("- " + rest)
  {
    var line := "- " + rest;
    assert line[1..] == " " + rest;
    SkipOne(rest);
    NoNotesWithoutLabel(line);
  }

  lemma IndentedItemLine(rest: string)
    requires rest != "" && !IsSpace(rest[0]) && rest[0] != '[' && SingleLine(rest)
    requires !Occurs(NOTES_LABEL, "  - " + rest)
    ensures Inert("  - " + rest)
  {
    var line := "  - " + rest;
    assert line[1..][1..] == "- " + rest;
    assert SkipSpaces(line) == SkipSpaces(line[1..]) == SkipSpaces(line[1..][1..]) == "- " + rest;
    assert ("- " + rest)[1..] == " " + rest;
    SkipOne(rest);
    NoNotesWithoutLabel(line);
  }

  /** A label without backticks does not arise from quoting a text. */
  lemma NotInQuoted(part: string, value: string)
    requires part != "" && '`' !in part && !Occurs(part, value)
    ensures !Occurs(part, Quoted(value))
  {
    if Occurs(part, Quoted(value)) {
      assert Quoted(value) == "" + ['`'] + (value + "`");
      OccursOnOneSide(part, "", '`', value + "`");
      assert value + "`" == value + ['`'] + "";
      OccursOnOneSide(part, value, '`', "");
      TooShort(part, "");
    }
  }

  /** A label without spaces occurs in an item only if it occurs in the item's label or its value. */
  lemma NotInItem(part: string, name: string, value: string)
    requires part != "" && ' ' !in part && !Occurs(part, "- " + name) && !Occurs(part, value)
    ensures !Occurs(part, Item(name, value))
  {
    if Occurs(part, Item(name, value)) {
      assert Item(name, value) == ("- " + name) + [' '] + value;
      OccursOnOneSide(part, "- " + name, ' ', value);
    }
  }

  lemma InertItem(name: string, value: string)
    requires name != "" && name[0] == '*' && Clean(name)
    requires SingleLine(value) && !Occurs(NOTES_LABEL, value)
    ensures Inert(Item(name, value))
  {
    MissingChar(NOTES_LABEL, "- " + name, 'N');
    NotInItem(NOTES_LABEL, name, value);
    ItemLine(name + (" " + value));
  }

  /** A label without backticks occurs in a quoted item only if it occurs before the quote or inside it. */
  lemma NotInQuotedItem(part: string, name: string, value: string)
    requires part != "" && '`' !in part && !Occurs(part, "- " + name + " ") && !Occurs(part, value)
    ensures !Occurs(part, Item(name, Quoted(value)))
  {
    var before := "- " + name + " ";
    if Occurs(part, Item(name, Quoted(value))) {
      assert Item(name, Quoted(value)) == before + ['`'] + (value + "`");
      OccursOnOneSide(part, before, '`', value + "`");
      assert value + "`" == value + ['`'] + "";
      OccursOnOneSide(part, value, '`', "");
      TooShort(part, "");
    }
  }

  lemma NumberText(x: real)
    requires x >= 0.0
    ensures TwoDecimals(x) != "" && forall c | c in TwoDecimals(x) :: Numeric(c, true)
  {
  }

  lemma InertQuotedItem(name: string, value: string)
    requires name != "" && name[0] == '*' && Clean(name)
    requires SingleLine(value) && !Occurs(NOTES_LABEL, value)
    ensures Inert(Item(name, Quoted(value)))
  {
    NotInQuoted(NOTES_LABEL, value);
    InertItem(name, Quoted(value));
  }

  lemma InertConfidence(x: real)
    requires x >= 0.0
    ensures Inert(Item(CONFIDENCE_LABEL, TwoDecimals(x)))
  {
    NumberText(x);
    MissingChar(NOTES_LABEL, TwoDecimals(x), 'N');
    InertItem(CONFIDENCE_LABEL, TwoDecimals(x));
  }

  lemma InertListHeading()
    ensures Inert("- " + "**Anchors:**")
  {
    MissingChar(NOTES_LABEL, "- " + "**Anchors:**", 'N');
    ItemLine("**Anchors:**");
  }

  lemma InertKeyLine(c: Concept, i: nat)
    requires WellFormed(c) && i < |KeyLines(c)|
    ensures Inert(KeyLines(c)[i])
  {
    if i == 0 {
      FlatLine("");
    } else if i == 1 {
      InertQuotedItem(ID_LABEL, c.id);
    } else if i == 2 {
      InertQuotedItem(CATEGORY_LABEL, c.category);
    } else {
      InertConfidence(c.confidence);
    }
  }

  lemma InertTextLine(c: Concept, i: nat)
    requires WellFormed(c) && i < |TextLines(c)|
    ensures Inert(TextLines(c)[i])
  {
    if i == 0 {
      InertItem("**Title:**", c.title);
    } else if i == 1 {
      InertItem("**Content:**", c.content);
    } else {
      InertListHeading();
    }
  }

  lemma InertFields(c: Concept)
    requires WellFormed(c)
    ensures forall l | l in KeyLines(c) + TextLines(c) :: Inert(l)
  {
    forall i | 0 <= i < |KeyLines(c)| ensures Inert(KeyLines(c)[i]) {
      InertKeyLine(c, i);
    }
    forall i | 0 <= i < |TextLines(c)| ensures Inert(TextLines(c)[i]) {
      InertTextLine(c, i);
    }
  }

  lemma InertAnchor(a: string)
    requires SingleLine(a) && !Occurs(NOTES_LABEL, a)
    ensures Inert("  - " + Quoted(a))
  {
    NotInQuoted(NOTES_LABEL, a);
    assert "  - " + Quoted(a) == "  -" + [' '] + Quoted(a);
    if Occurs(NOTES_LABEL, "  - " + Quoted(a)) {
      OccursOnOneSide(NOTES_LABEL, "  -", ' ', Quoted(a));
      TooShort(NOTES_LABEL, "  -");
    }
    IndentedItemLine(Quoted(a));
  }

  lemma {:induction false} InertAnchorLines(anchors: seq<string>, n: nat)
    requires n <= |anchors| && forall a | a in anchors :: SingleLine(a) && !Occurs(NOTES_LABEL, a)
    ensures forall l | l in AnchorLines(anchors, n) :: Inert(l)
  {
    if n > 0 {
      InertAnchorLines(anchors, n - 1);
      InertAnchor(anchors[n - 1]);
    }
  }

  lemma NoAnchors()
    ensures Inert("  - " + "(none)")
  {
    MissingChar(NOTES_LABEL, "  - " + "(none)", 'N');
    IndentedItemLine("(none)");
  }

  lemma MoreAnchors(n: nat)
    ensures Inert("  - " + ("\U{2026} and " + NatText(n) + " more"))
  {
    var more := "\U{2026} and " + NatText(n) + " more";
    MissingChar(NOTES_LABEL, "  - " + more, 'N');
    IndentedItemLine(more);
  }

  lemma InertAnchors(anchors: seq<string>)
    requires forall a | a in anchors :: SingleLine(a) && !Occurs(NOTES_LABEL, a)
    ensures forall l | l in Anchors(anchors) :: Inert(l)
  {
    if anchors == [] {
      NoAnchors();
    } else if |anchors| <= 6 {
      InertAnchorLines(anchors, |anchors|);
    } else {
      InertAnchorLines(anchors, 6);
      MoreAnchors(|anchors| - 6);
    }
  }

  lemma InertTierHeading()
    ensures forall l | l in TIER_HEADING :: Inert(l)
  {
    FlatLine("");
    FlatLine("**Your tier (pick one):**");
  }

  lemma InertTruthHeading()
    ensures forall l | l in TRUTH_HEADING :: Inert(l)
  {
    FlatLine("");
    FlatLine("**Truth label (pick one):**");
  }

  /** A checkbox line holds no header and no notes. */
  ghost predicate OnlyABox(line: string) {
    SingleLine(line) && !(MARKER <= line) && NotesIn(line).None?
  }

  lemma BoxLine(ticked: bool, text: string)
    requires Clean(text)
    ensures OnlyABox(Box(ticked, text))
  {
    var l := Box(ticked, text);
    assert 'N' !in l && l[0] == '-';
    MissingChar(NOTES_LABEL, l, 'N');
    NoNotesWithoutLabel(l);
  }

  lemma CleanT1()
    ensures Clean("T1" + DASH + "observed pattern; no enforcement")
  {
  }

  lemma CleanT2()
    ensures Clean("T2" + DASH + "documented + \U{2265}1 " + "enforcing mechanism" + " (test/lint/contract)")
  {
  }

  lemma CleanT3()
    ensures Clean("T3" + DASH + "codified in CI/types; " + "violations fail build")
  {
  }

  lemma CleanTier(t: Tier)
    ensures Clean(TierText(t))
  {
    if t == T1 {
      CleanT1();
    } else if t == T2 {
      CleanT2();
    } else {
      CleanT3();
    }
  }

  lemma CleanTrue()
    ensures Clean("TRUE" + DASH + "concept is accurate")
  {
  }

  lemma CleanPartial()
    ensures Clean("PARTIAL" + DASH + "partially accurate " + "or mis-stated scope")
  {
  }

  lemma CleanFalse()
    ensures Clean("FALSE" + DASH + "wrong or generic boilerplate")
  {
  }

  lemma CleanTruth(t: Truth)
    ensures Clean(TruthText(t))
  {
    if t == True {
      CleanTrue();
    } else if t == Partial {
      CleanPartial();
    } else {
      CleanFalse();
    }
  }

  lemma {:induction false} BoxLines<T>(options: seq<T>, chosen: set<T>, text: T -> string)
    requires forall o | o in options :: Clean(text(o))
    ensures forall l | l in Boxes(options, chosen, text) :: OnlyABox(l)
  {
    if options != [] {
      BoxLines(options[1..], chosen, text);
      BoxLine(options[0] in chosen, text(options[0]));
    }
  }

  /** A line that is neither a header nor a checkbox. */
  ghost predicate Unboxed(line: string) { SingleLine(line) && !(MARKER <= line) && Checkbox(line).None? }

  lemma UnboxedLine(line: string)
    requires SingleLine(line) && (line != "" ==> !IsSpace(line[0]) && line[0] != '-' && line[0] != '#')
    ensures Unboxed(line)
  {
  }

  lemma UnboxedRule(line: string)
    requires |line| >= 2 && line[0] == line[1] == '-' && SingleLine(line)
    ensures Unboxed(line)
  {
    assert line[1..][0] == '-';
  }

  lemma NotesLineBreaks()
    ensures SingleLine(NOTES_LABEL + " " + BLANK_NOTES)
  {
    assert SingleLine(NOTES_LABEL);
  }

  lemma InertEnd()
    ensures forall l | l in SECTION_END :: Unboxed(l)
  {
    UnboxedLine("");
    NotesLineBreaks();
    UnboxedLine(NOTES_LABEL + " " + BLANK_NOTES);
    UnboxedRule("---");
  }

  // ---------------------------------------------------------------------------------------
  // Reading one section
  // ---------------------------------------------------------------------------------------

  lemma IdFound(c: Concept, lines: seq<string>)
    requires WellFormed(c) && KeyLines(c) <= lines
    ensures FirstField(lines, ID_LABEL) == Some(c.id)
  {
    assert lines[0] == "" && lines[1] == Item(ID_LABEL, Quoted(c.id));
    assert FieldIn("", ID_LABEL).None?;
    FieldRoundTrip(ID_LABEL, c.id);
    FieldPast(lines[..1], lines[1..], ID_LABEL);
    assert lines[..1] + lines[1..] == lines;
  }

  lemma CategoryFound(c: Concept, lines: seq<string>)
    requires WellFormed(c) && KeyLines(c) <= lines
    ensures FirstField(lines, CATEGORY_LABEL) == Some(c.category)
  {
    assert lines[0] == "" && lines[1] == Item(ID_LABEL, Quoted(c.id))
           && lines[2] == Item(CATEGORY_LABEL, Quoted(c.category));
    assert FieldIn("", CATEGORY_LABEL).None?;
    MissingChar(CATEGORY_LABEL, "- " + ID_LABEL + " ", 'C');
    NotInQuotedItem(CATEGORY_LABEL, ID_LABEL, c.id);
    NoFieldWithoutLabel(lines[1], CATEGORY_LABEL);
    FieldRoundTrip(CATEGORY_LABEL, c.category);
    FieldPast(lines[..2], lines[2..], CATEGORY_LABEL);
    assert lines[..2] + lines[2..] == lines;
  }

  lemma ConfidenceFound(c: Concept, lines: seq<string>)
    requires WellFormed(c) && KeyLines(c) <= lines
    ensures FirstNumber(lines, CONFIDENCE_LABEL) == Some(TwoDecimals(c.confidence))
  {
    assert lines[0] == "" && lines[1] == Item(ID_LABEL, Quoted(c.id))
           && lines[2] == Item(CATEGORY_LABEL, Quoted(c.category))
        && lines[3] == Item(CONFIDENCE_LABEL, TwoDecimals(c.confidence));
    assert NumberIn("", CONFIDENCE_LABEL).None?;
    NoConfidenceBefore(ID_LABEL, c.id);
    NoConfidenceBefore(CATEGORY_LABEL, c.category);
    NumberText(c.confidence);
    NumberRoundTrip(CONFIDENCE_LABEL, TwoDecimals(c.confidence));
    NumberPast(lines[..3], lines[3..], CONFIDENCE_LABEL);
    assert lines[..3] + lines[3..] == lines;
  }

  lemma NoConfidenceBefore(name: string, value: string)
    requires 'L' !in name && !Occurs(CONFIDENCE_LABEL, value)
    ensures NumberIn(Item(name, Quoted(value)), CONFIDENCE_LABEL).None?
  {
    assert CONFIDENCE_LABEL[2] == 'L' && '`' !in CONFIDENCE_LABEL;
    MissingChar(CONFIDENCE_LABEL, "- " + name + " ", 'L');
    NotInQuotedItem(CONFIDENCE_LABEL, name, value);
    NoNumberWithoutLabel(Item(name, Quoted(value)), CONFIDENCE_LABEL);
  }

  /** Everything between the section header and the notes line. */
  function Lead(c: Concept, m: Marks): seq<string>
    requires c.confidence >= 0.0
  {
    KeyLines(c) + TextLines(c) + Anchors(c.anchors) + TIER_HEADING + TierLines(m) + TRUTH_HEADING + TruthLines(m)
  }

  lemma LeadIsQuiet(c: Concept, m: Marks)
    requires WellFormed(c)
    ensures forall l | l in Lead(c, m) :: OnlyABox(l)
  {
    InertFields(c);
    InertAnchors(c.anchors);
    InertTierHeading();
    InertTruthHeading();
    forall t: Tier ensures Clean(TierText(t)) { CleanTier(t); }
    forall t: Truth ensures Clean(TruthText(t)) { CleanTruth(t); }
    BoxLines(TIERS, m.tiers, TierText);
    BoxLines(TRUTHS, m.truths, TruthText);
  }

  lemma NotesFound(lead: seq<string>, extra: seq<string>)
    requires forall l | l in lead :: OnlyABox(l)
    ensures FirstNotes(lead + SECTION_END + extra) == Some(BLANK_NOTES)
  {
    NoBlankNotes();
    var tail := SECTION_END + extra;
    assert lead + SECTION_END + extra == lead + tail;
    NotesPast(lead, tail);
    assert tail[0] == "" && tail[1] == NOTES_LABEL + " " + BLANK_NOTES;
    assert NotesIn("").None?;
    NotesPast(tail[..1], tail[1..]);
    assert tail[..1] + tail[1..] == tail;
  }

  lemma LeadTicks(c: Concept, m: Marks)
    requires WellFormed(c)
    ensures TickedTiers(Lead(c, m)) == Picked(TIERS, m.tiers)
    ensures TickedTruths(Lead(c, m)) == Picked(TRUTHS, m.truths)
  {
    var fields := KeyLines(c) + TextLines(c) + Anchors(c.anchors) + TIER_HEADING;
    InertFields(c);
    InertAnchors(c.anchors);
    InertTierHeading();
    NothingTicked(fields);
    InertTruthHeading();
    NothingTicked(TRUTH_HEADING);
    TickedTierBoxes(TIERS, m.tiers);
    TickedTruthBoxes(TRUTHS, m.truths);
    JoinTicks(fields, TierLines(m), TRUTH_HEADING, TruthLines(m));
  }

  lemma JoinTicks(a: seq<string>, b: seq<string>, c: seq<string>, d: seq<string>)
    requires TickedTiers(a) == TickedTiers(c) == TickedTiers(d) == []
    requires TickedTruths(a) == TickedTruths(b) == TickedTruths(c) == []
    ensures TickedTiers(a + b + c + d) == TickedTiers(b) && TickedTruths(a + b + c + d) == TickedTruths(d)
  {
    TickedAppend(a, b);
    TickedAppend(a + b, c);
    TickedAppend(a + b + c, d);
  }

  lemma BodyTicks(c: Concept, m: Marks, extra: seq<string>)
    requires WellFormed(c) && forall l | l in extra :: Checkbox(l).None?
    ensures TickedTiers(BodyLines(c, m) + extra) == Picked(TIERS, m.tiers)
    ensures TickedTruths(BodyLines(c, m) + extra) == Picked(TRUTHS, m.truths)
  {
    LeadTicks(c, m);
    InertEnd();
    NothingTicked(SECTION_END);
    NothingTicked(extra);
    TickedAppend(Lead(c, m), SECTION_END);
    TickedAppend(BodyLines(c, m), extra);
  }

  // ---------------------------------------------------------------------------------------
  // The round trip
  // ---------------------------------------------------------------------------------------

  /** What the parser reports for a printed concept: the printed title without outer spaces, the confidence to
      the nearest hundredth, the first tier and truth ticked in printed order, a warning for a second one. */
  function Expected(idx: nat, c: Concept, m: Marks): Parsed
    requires c.confidence >= 0.0
  {
    Parsed(idx, c.id, Strip(c.title[..Min(80, |c.title|)]), c.category, Hundredths(c.confidence) as real / 100.0,
           FirstOf(Picked(TIERS, m.tiers)), FirstOf(Picked(TRUTHS, m.truths)), "",
           |Picked(TIERS, m.tiers)| > 1, |Picked(TRUTHS, m.truths)| > 1)
  }

  lemma FieldsFound(c: Concept, lines: seq<string>)
    requires WellFormed(c) && KeyLines(c) <= lines
    ensures FirstField(lines, ID_LABEL) == Some(c.id) && FirstField(lines, CATEGORY_LABEL) == Some(c.category)
    ensures FirstNumber(lines, CONFIDENCE_LABEL) == Some(TwoDecimals(c.confidence))
  {
    IdFound(c, lines);
    CategoryFound(c, lines);
    ConfidenceFound(c, lines);
  }

  lemma NotesAreBlank()
    ensures "___" <= BLANK_NOTES
  {
    assert forall i | 0 <= i < 3 :: BLANK_NOTES[i] in BLANK_NOTES;
  }

  lemma HeaderRoundTrip(idx: nat, c: Concept)
    requires c.title != ""
    ensures MARKER <= HeaderLine(idx, c) && HeaderIn(HeaderLine(idx, c)) == Some((idx, c.title[..Min(80, |c.title|)]))
  {
    var title := c.title[..Min(80, |c.title|)];
    var digits, rest := NatText(idx), DASH + title;
    var line := HeaderLine(idx, c);
    assert line == MARKER + (digits + rest);
    assert line[|MARKER|..] == digits + rest;
    TakeNumericStops(digits, rest, false);
    assert (digits + rest)[|digits|..] == rest && rest[|DASH|..] == title;
    NatRoundTrip(idx);
  }

  lemma {:induction false} TakeBodyStops(body: seq<string>, rest: seq<string>)
    requires forall l | l in body :: !(MARKER <= l)
    requires rest != [] ==> MARKER <= rest[0]
    ensures TakeBody(body + rest) == body
  {
    if body == [] {
      assert body + rest == rest;
    } else {
      assert (body + rest)[1..] == body[1..] + rest;
      assert body[0] in body && forall l | l in body[1..] :: l in body;
      TakeBodyStops(body[1..], rest);
    }
  }

  lemma {:induction false} NoSections(lines: seq<string>)
    requires forall l | l in lines :: HeaderIn(l).None?
    ensures ParseLines(lines) == []
  {
    if |lines| > 1 {
      NoSections(lines[1..]);
    }
  }

  lemma {:induction false} SkipPreamble(before: seq<string>, rest: seq<string>)
    requires forall l | l in before :: HeaderIn(l).None?
    ensures ParseLines(before + rest) == ParseLines(rest)
  {
    if before == [] {
      assert before + rest == rest;
    } else {
      assert (before + rest)[1..] == before[1..] + rest;
      SkipPreamble(before[1..], rest);
    }
  }

  /** A line after the sections that is neither a header nor a checkbox. */
  ghost predicate Closing(line: string) { Unboxed(line) && HeaderIn(line).None? }

  lemma BodyHasNoHeader(c: Concept, m: Marks)
    requires WellFormed(c)
    ensures forall l | l in BodyLines(c, m) :: !(MARKER <= l) && SingleLine(l)
  {
    LeadIsQuiet(c, m);
    InertEnd();
    assert BodyLines(c, m) == Lead(c, m) + SECTION_END;
  }

  /** A header line, a body without the marker, and the end of the lines or another header. */
  lemma ParseFirst(header: string, idx: nat, title: string, body: seq<string>, rest: seq<string>)
    requires HeaderIn(header) == Some((idx, title)) && body != []
    requires forall l | l in body :: !(MARKER <= l)
    requires rest != [] ==> MARKER <= rest[0]
    ensures ParseLines([header] + body + rest) == [ParseBody(idx, title, body)] + ParseLines(rest)
  {
    TakeBodyStops(body, rest);
    ThreeParts(header, body, rest);
    ParseUnfold([header] + body + rest, idx, title, body, rest);
  }

  lemma ThreeParts(header: string, body: seq<string>, rest: seq<string>)
    ensures var lines := [header] + body + rest;
            lines[0] == header && lines[1..] == body + rest && lines[1 + |body|..] == rest
  {
  }

  lemma HeaderIsALine(idx: nat, c: Concept)
    requires SingleLine(c.title)
    ensures SingleLine(HeaderLine(idx, c))
  {
    assert SingleLine(MARKER) && SingleLine(NatText(idx));
  }

  /** One ticked tier and one ticked truth box come back as exactly those labels, without warnings; no ticked
      box comes back as no label. */
  lemma TickedAndBlank(idx: nat, c: Concept, t: Tier, u: Truth)
    requires c.confidence >= 0.0
    ensures var p := Expected(idx, c, Marks({t}, {u}));
            p.tier == Some(t) && p.truth == Some(u) && !p.tierWarning && !p.truthWarning
    ensures var p := Expected(idx, c, Marks({}, {}));
            p.tier == None && p.truth == None && !p.tierWarning && !p.truthWarning
  {
    PickedFromThree(T1, T2, T3, {t});
    PickedFromThree(True, Partial, False, {u});
    PickedFromThree(T1, T2, T3, {});
    PickedFromThree(True, Partial, False, {});
  }

  lemma PickedFromThree<T>(a: T, b: T, c: T, chosen: set<T>)
    ensures Picked([a, b, c], chosen)
         == (if a in chosen then [a] else []) + (if b in chosen then [b] else []) + (if c in chosen then [c] else [])
  {
    assert [a, b, c][1..] == [b, c] && [b, c][1..] == [c];
    assert Picked([c], chosen) == (if c in chosen then [c] else []) + Picked([], chosen);
  }
}
