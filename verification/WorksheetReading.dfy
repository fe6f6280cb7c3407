/** Reading a printed worksheet back, whatever the contents of its concepts: a content that holds line breaks is read
    as several lines, and the round trip holds exactly when none of them passes for something of the sheet's own. */
module WorksheetReading {
  import opened Prelude
  import opened Text
  import opened CalibrationScore
  import opened CalibrationSample
  import opened Worksheet
  import opened WorksheetProofs

  /** The concept with a harmless content. */
  function Plain(c: Concept): Concept { c.(content := "x") }

  // ---------------------------------------------------------------------------------------
  // A section around its content
  // ---------------------------------------------------------------------------------------

  function ContentItem(c: Concept): string { Item("**Content:**", c.content) }

  function BeforeContent(c: Concept): seq<string>
    requires c.confidence >= 0.0
  {
    KeyLines(c) + [Item("**Title:**", c.title)]
  }

  function AfterContent(c: Concept, m: Marks): seq<string> {
    ["- " + "**Anchors:**"] + Anchors(c.anchors) + TIER_HEADING + TierLines(m) + TRUTH_HEADING + TruthLines(m)
    + SECTION_END
  }

  lemma Regroup<T>(p: seq<T>, x: seq<T>, q: seq<T>, b: seq<T>)
    ensures (p + x + q) + b == p + x + (q + b)
  {
  }

  lemma GroupText<T>(k: seq<T>, t: T, x: T, r: T)
    ensures k + [t, x, r] == (k + [t]) + [x] + [r]
  {
  }

  /** The body of a section is its content line between lines that do not depend on the content. */
  lemma AroundContent(c: Concept, m: Marks)
    requires c.confidence >= 0.0
    ensures BodyLines(c, m) == BeforeContent(c) + [ContentItem(c)] + AfterContent(c, m)
  {
    var p, x := BeforeContent(c), [ContentItem(c)];
    var q0 := ["- " + "**Anchors:**"];
    var q1 := q0 + Anchors(c.anchors);
    var q2 := q1 + TIER_HEADING;
    var q3 := q2 + TierLines(m);
    var q4 := q3 + TRUTH_HEADING;
    var q5 := q4 + TruthLines(m);
    GroupText(KeyLines(c), Item("**Title:**", c.title), ContentItem(c), "- " + "**Anchors:**");
    Regroup(p, x, q0, Anchors(c.anchors));
    Regroup(p, x, q1, TIER_HEADING);
    Regroup(p, x, q2, TierLines(m));
    Regroup(p, x, q3, TRUTH_HEADING);
    Regroup(p, x, q4, TruthLines(m));
    Regroup(p, x, q5, SECTION_END);
  }

  lemma PlainAround(c: Concept, m: Marks)
    requires c.confidence >= 0.0
    ensures BodyLines(Plain(c), m) == BeforeContent(c) + [ContentItem(Plain(c))] + AfterContent(c, m)
  {
    AroundContent(Plain(c), m);
  }

  lemma BeforeIsInert(c: Concept)
    requires WellFormed(Plain(c))
    ensures forall l | l in BeforeContent(c) + [ContentItem(Plain(c))] :: Inert(l)
  {
    var fields := KeyLines(Plain(c)) + TextLines(Plain(c));
    InertFields(Plain(c));
    assert TextLines(Plain(c))[0] == Item("**Title:**", c.title) && TextLines(Plain(c))[1] == ContentItem(Plain(c));
    forall l | l in BeforeContent(c) + [ContentItem(Plain(c))] ensures l in fields {
      assert l in KeyLines(c) || l in TextLines(Plain(c));
    }
  }

  lemma FrameHasNoMarker(c: Concept, m: Marks)
    requires WellFormed(Plain(c))
    ensures forall l | l in BeforeContent(c) + AfterContent(c, m) :: !(MARKER <= l) && SingleLine(l)
  {
    PlainAround(c, m);
    BodyHasNoHeader(Plain(c), m);
    forall l | l in BeforeContent(c) + AfterContent(c, m) ensures l in BodyLines(Plain(c), m) {}
  }

  lemma TicksAround(a: seq<string>, b: seq<string>, x: seq<string>)
    requires forall l | l in a :: Checkbox(l).None?
    ensures TickedTiers(a + x + b) == TickedTiers(x) + TickedTiers(b)
    ensures TickedTruths(a + x + b) == TickedTruths(x) + TickedTruths(b)
  {
    NothingTicked(a);
    TickedAppend(a, x);
    assert TickedTiers(a + x) == TickedTiers(x) && TickedTruths(a + x) == TickedTruths(x);
    TickedAppend(a + x, b);
  }

  /** Before the content no box is ticked, after it exactly the chosen ones are. */
  lemma FrameTicks(c: Concept, m: Marks)
    requires WellFormed(Plain(c))
    ensures forall l | l in BeforeContent(c) :: Checkbox(l).None?
    ensures TickedTiers(AfterContent(c, m)) == Picked(TIERS, m.tiers)
    ensures TickedTruths(AfterContent(c, m)) == Picked(TRUTHS, m.truths)
  {
    var lead := BeforeContent(c) + [ContentItem(Plain(c))];
    BeforeIsInert(c);
    PlainAround(c, m);
    BodyTicks(Plain(c), m, []);
    assert BodyLines(Plain(c), m) + [] == BodyLines(Plain(c), m);
    TicksAfter(lead, AfterContent(c, m));
  }

  lemma TicksAfter(lead: seq<string>, after: seq<string>)
    requires forall l | l in lead :: Checkbox(l).None?
    ensures TickedTiers(lead + after) == TickedTiers(after) && TickedTruths(lead + after) == TickedTruths(after)
  {
    NothingTicked(lead);
    TickedAppend(lead, after);
  }

  lemma FrameNotes(c: Concept, m: Marks, extra: seq<string>)
    requires WellFormed(Plain(c))
    ensures forall l | l in BeforeContent(c) :: NotesIn(l).None?
    ensures FirstNotes(AfterContent(c, m) + extra) == Some(BLANK_NOTES)
  {
    var lead := BeforeContent(c) + [ContentItem(Plain(c))];
    BeforeIsInert(c);
    LeadIsQuiet(Plain(c), m);
    NotesFound(Lead(Plain(c), m), extra);
    assert BodyLines(Plain(c), m) == Lead(Plain(c), m) + SECTION_END;
    PlainAround(c, m);
    Associative(lead, AfterContent(c, m), extra);
    NotesPast(lead, AfterContent(c, m) + extra);
  }

  // ---------------------------------------------------------------------------------------
  // The lines a section is read as
  // ---------------------------------------------------------------------------------------

  /** The lines the content line is read as. */
  function ContentLines(c: Concept): seq<string> { Lines(Ended(ContentItem(c))) }

  function ReadBody(c: Concept, m: Marks): seq<string>
    requires c.confidence >= 0.0
  {
    BeforeContent(c) + ContentLines(c) + AfterContent(c, m)
  }

  function ReadSection(idx: nat, c: Concept, m: Marks): seq<string>
    requires c.confidence >= 0.0
  {
    [HeaderLine(idx, c)] + ReadBody(c, m)
  }

  lemma ReadAround(before: seq<string>, line: string, after: seq<string>)
    requires forall l | l in before + after :: SingleLine(l)
    ensures ReadBack(before + [line] + after) == before + Lines(Ended(line)) + after
  {
    ReadBackAppend(before + [line], after);
    ReadBackAppend(before, [line]);
    SingleLinesReadBack(before);
    SingleLinesReadBack(after);
    ReadOne(line);
  }

  lemma ReadOne(line: string)
    ensures ReadBack([line]) == Lines(Ended(line))
  {
    assert [line][1..] == [] && ReadBack([]) == [];
  }

  lemma SectionReadsBack(idx: nat, c: Concept, m: Marks)
    requires WellFormed(Plain(c))
    ensures ReadBack(Section(idx, c, m)) == ReadSection(idx, c, m)
  {
    AroundContent(c, m);
    FrameHasNoMarker(c, m);
    HeaderIsALine(idx, c);
    var header, before, after := HeaderLine(idx, c), BeforeContent(c), AfterContent(c, m);
    AfterHeader(header, before, [ContentItem(c)], after);
    AfterHeader(header, before, ContentLines(c), after);
    ReadAround([header] + before, ContentItem(c), after);
  }

  lemma AfterHeader<T>(header: T, before: seq<T>, x: seq<T>, after: seq<T>)
    ensures [header] + (before + x + after) == [header] + before + x + after
  {
  }

  // ---------------------------------------------------------------------------------------
  // What the parser makes of them
  // ---------------------------------------------------------------------------------------

  /** The notes a parser reports when the content is the first place it finds any. */
  function ContentNotes(c: Concept): string {
    match FirstNotes(ContentLines(c))
    case None => ""
    case Some(notes) => if "___" <= notes then "" else notes
  }

  /** What is reported for a section: the content's own ticks come first, and its notes hide the sheet's. */
  function Reported(idx: nat, c: Concept, m: Marks): Parsed
    requires c.confidence >= 0.0
  {
    var tiers := TickedTiers(ContentLines(c)) + Picked(TIERS, m.tiers);
    var truths := TickedTruths(ContentLines(c)) + Picked(TRUTHS, m.truths);
    Expected(idx, c, m).(tier := FirstOf(tiers), truth := FirstOf(truths), notes := ContentNotes(c),
                         tierWarning := |tiers| > 1, truthWarning := |truths| > 1)
  }

  lemma NotesAmong(before: seq<string>, content: seq<string>, after: seq<string>)
    requires forall l | l in before :: NotesIn(l).None?
    ensures FirstNotes(before + content + after)
            == if FirstNotes(content).Some? then FirstNotes(content) else FirstNotes(after)
  {
    Associative(before, content, after);
    NotesPast(before, content + after);
    FirstNotesAppend(content, after);
  }

  lemma {:induction false} FirstNotesAppend(a: seq<string>, b: seq<string>)
    ensures FirstNotes(a + b) == if FirstNotes(a).Some? then FirstNotes(a) else FirstNotes(b)
  {
    if a == [] {
      assert a + b == b;
    } else {
      assert (a + b)[1..] == a[1..] + b;
      FirstNotesAppend(a[1..], b);
    }
  }

  lemma BodyNotes(c: Concept, m: Marks, extra: seq<string>)
    requires WellFormed(Plain(c))
    ensures var notes := FirstNotes(ReadBody(c, m) + extra);
            ContentNotes(c) == if notes.Some? && !("___" <= notes.value) then notes.value else ""
  {
    FrameNotes(c, m, extra);
    Associative(BeforeContent(c) + ContentLines(c), AfterContent(c, m), extra);
    NotesAmong(BeforeContent(c), ContentLines(c), AfterContent(c, m) + extra);
    NotesAreBlank();
  }

  lemma BodyTicksRead(c: Concept, m: Marks, extra: seq<string>)
    requires WellFormed(Plain(c)) && forall l | l in extra :: Checkbox(l).None?
    ensures TickedTiers(ReadBody(c, m) + extra) == TickedTiers(ContentLines(c)) + Picked(TIERS, m.tiers)
    ensures TickedTruths(ReadBody(c, m) + extra) == TickedTruths(ContentLines(c)) + Picked(TRUTHS, m.truths)
  {
    FrameTicks(c, m);
    TicksAround(BeforeContent(c), AfterContent(c, m), ContentLines(c));
    NothingTicked(extra);
    TickedAppend(ReadBody(c, m), extra);
  }

  lemma BodyFields(c: Concept, lines: seq<string>)
    requires WellFormed(Plain(c)) && BeforeContent(c) <= lines
    ensures FirstField(lines, ID_LABEL) == Some(c.id) && FirstField(lines, CATEGORY_LABEL) == Some(c.category)
    ensures FirstNumber(lines, CONFIDENCE_LABEL) == Some(TwoDecimals(c.confidence))
  {
    assert KeyLines(Plain(c)) == KeyLines(c) == BeforeContent(c)[..|KeyLines(c)|] == lines[..|KeyLines(c)|];
    FieldsFound(Plain(c), lines);
  }

  /** A section's body, with any boxes ticked and any lines without boxes after it, is reported as that. */
  lemma BodyIsReported(idx: nat, c: Concept, m: Marks, extra: seq<string>)
    requires WellFormed(Plain(c)) && forall l | l in extra :: Checkbox(l).None?
    ensures ParseBody(idx, c.title[..Min(80, |c.title|)], ReadBody(c, m) + extra) == Reported(idx, c, m)
  {
    var body := ReadBody(c, m) + extra;
    assert BeforeContent(c) <= body;
    BodyFields(c, body);
    BodyTicksRead(c, m, extra);
    BodyNotes(c, m, extra);
    TwoDecimalsRoundTrip(c.confidence);
  }

  // ---------------------------------------------------------------------------------------
  // Which contents do no harm
  // ---------------------------------------------------------------------------------------

  /** No line of the content starts a section, ticks a box or carries notes. */
  ghost predicate Quiet(c: Concept) {
    && (forall l | l in ContentLines(c) :: !(MARKER <= l))
    && TickedTiers(ContentLines(c)) == [] && TickedTruths(ContentLines(c)) == [] && ContentNotes(c) == ""
  }

  /** A concept the sheet can carry. */
  ghost predicate Readable(c: Concept) { WellFormed(Plain(c)) && Quiet(c) }

  lemma QuietIsExpected(idx: nat, c: Concept, m: Marks)
    requires c.confidence >= 0.0 && Quiet(c)
    ensures Reported(idx, c, m) == Expected(idx, c, m)
  {
    assert [] + Picked(TIERS, m.tiers) == Picked(TIERS, m.tiers);
    assert [] + Picked(TRUTHS, m.truths) == Picked(TRUTHS, m.truths);
  }

  /** Every well-formed concept of one line is readable. */
  lemma SingleLinesAreQuiet(c: Concept)
    requires WellFormed(c)
    ensures Readable(c)
  {
    var line := ContentItem(c);
    InertFields(c);
    assert TextLines(c)[1] == line && line in KeyLines(c) + TextLines(c);
    assert Ended(line) == line by { assert line[|line| - 1] in line; }
    LineReadsBack(line);
    NothingTicked([line]);
    NotesPast([line], []);
    assert [line] + [] == [line];
    PlainIsWellFormed(c);
  }

  lemma PlainIsWellFormed(c: Concept)
    requires WellFormed(c)
    ensures WellFormed(Plain(c))
  {
    TooShort(NOTES_LABEL, "x");
  }

  // ---------------------------------------------------------------------------------------
  // Whole worksheets
  // ---------------------------------------------------------------------------------------

  function ReadSections(concepts: seq<Concept>, marks: seq<Marks>, first: nat): seq<string>
    requires |concepts| == |marks| && forall c | c in concepts :: c.confidence >= 0.0
  {
    if concepts == [] then []
    else ReadSection(first, concepts[0], marks[0]) + ReadSections(concepts[1..], marks[1..], first + 1)
  }

  function AllExpected(concepts: seq<Concept>, marks: seq<Marks>, first: nat): seq<Parsed>
    requires |concepts| == |marks| && forall c | c in concepts :: c.confidence >= 0.0
  {
    if concepts == [] then []
    else [Expected(first, concepts[0], marks[0])] + AllExpected(concepts[1..], marks[1..], first + 1)
  }

  lemma {:induction false} SectionsReadBack(concepts: seq<Concept>, marks: seq<Marks>, first: nat)
    requires |concepts| == |marks| && forall c | c in concepts :: c.confidence >= 0.0 && WellFormed(Plain(c))
    ensures ReadBack(Sections(concepts, marks, first)) == ReadSections(concepts, marks, first)
  {
    if concepts != [] {
      SectionReadsBack(first, concepts[0], marks[0]);
      SectionsReadBack(concepts[1..], marks[1..], first + 1);
      ReadBackAppend(Section(first, concepts[0], marks[0]), Sections(concepts[1..], marks[1..], first + 1));
    }
  }

  lemma ReadBodyHasNoMarker(c: Concept, m: Marks)
    requires Readable(c)
    ensures ReadBody(c, m) != [] && forall l | l in ReadBody(c, m) :: !(MARKER <= l)
  {
    FrameHasNoMarker(c, m);
    forall l | l in ReadBody(c, m) ensures !(MARKER <= l) {
      assert l in BeforeContent(c) + AfterContent(c, m) || l in ContentLines(c);
    }
  }

  /** One section in front of `rest` parses to its concept, followed by what `rest` parses to. */
  lemma SectionRoundTrip(idx: nat, c: Concept, m: Marks, rest: seq<string>)
    requires Readable(c) && rest != [] && MARKER <= rest[0]
    ensures ParseLines(ReadSection(idx, c, m) + rest) == [Expected(idx, c, m)] + ParseLines(rest)
  {
    var body := ReadBody(c, m);
    HeaderRoundTrip(idx, c);
    ReadBodyHasNoMarker(c, m);
    ParseFirst(HeaderLine(idx, c), idx, c.title[..Min(80, |c.title|)], body, rest);
    BodyIsReported(idx, c, m, []);
    assert body + [] == body;
    QuietIsExpected(idx, c, m);
  }

  lemma LastSectionRoundTrip(idx: nat, c: Concept, m: Marks, closing: seq<string>)
    requires Readable(c) && forall l | l in closing :: Closing(l)
    ensures ParseLines(ReadSection(idx, c, m) + closing) == [Expected(idx, c, m)]
  {
    var header, body := HeaderLine(idx, c), ReadBody(c, m);
    HeaderRoundTrip(idx, c);
    ReadBodyHasNoMarker(c, m);
    ParseFirst(header, idx, c.title[..Min(80, |c.title|)], body + closing, []);
    Associative([header], body, closing);
    assert [header] + (body + closing) + [] == [header] + (body + closing);
    BodyIsReported(idx, c, m, closing);
    QuietIsExpected(idx, c, m);
  }

  lemma {:induction false} SectionsRoundTrip(concepts: seq<Concept>, marks: seq<Marks>, first: nat,
                                             closing: seq<string>)
    requires |concepts| == |marks| && forall c | c in concepts :: c.confidence >= 0.0 && Readable(c)
    requires forall l | l in closing :: Closing(l)
    ensures ParseLines(ReadSections(concepts, marks, first) + closing) == AllExpected(concepts, marks, first)
    decreases |concepts|
  {
    if concepts == [] {
      assert ReadSections(concepts, marks, first) + closing == closing;
      NoSections(closing);
    } else {
      var head, others := ReadSection(first, concepts[0], marks[0]), ReadSections(concepts[1..], marks[1..], first + 1);
      SectionsRoundTrip(concepts[1..], marks[1..], first + 1, closing);
      if |concepts| == 1 {
        assert others == [] && head + others == head;
        LastSectionRoundTrip(first, concepts[0], marks[0], closing);
      } else {
        HeaderRoundTrip(first + 1, concepts[1]);
        var rest := others + closing;
        assert rest[0] == HeaderLine(first + 1, concepts[1..][0]);
        Associative(head, others, closing);
        SectionRoundTrip(first, concepts[0], marks[0], rest);
      }
    }
  }

  /** The text of a whole worksheet. */
  function WorksheetText(preamble: seq<string>, concepts: seq<Concept>, marks: seq<Marks>, closing: seq<string>): string
    requires |concepts| == |marks| && forall c | c in concepts :: c.confidence >= 0.0
  {
    Join(preamble + Sections(concepts, marks, 1) + closing)
  }

  lemma {:induction false} SectionsEndInALine(concepts: seq<Concept>, marks: seq<Marks>, first: nat)
    requires |concepts| == |marks| && concepts != [] && forall c | c in concepts :: c.confidence >= 0.0
    ensures var lines := Sections(concepts, marks, first); lines != [] && lines[|lines| - 1] == ""
  {
    var section := Section(first, concepts[0], marks[0]);
    assert section[|section| - 1] == SECTION_END[4];
    if |concepts| > 1 {
      SectionsEndInALine(concepts[1..], marks[1..], first + 1);
    } else {
      assert Sections(concepts[1..], marks[1..], first + 1) == [];
    }
  }

  lemma WorksheetReadsBack(preamble: seq<string>, concepts: seq<Concept>, marks: seq<Marks>, closing: seq<string>)
    requires |concepts| == |marks| && forall c | c in concepts :: c.confidence >= 0.0 && WellFormed(Plain(c))
    requires preamble != [] && forall l | l in preamble + closing :: SingleLine(l)
    ensures Lines(WorksheetText(preamble, concepts, marks, closing))
            == preamble + ReadSections(concepts, marks, 1) + closing
  {
    var sections := Sections(concepts, marks, 1);
    var lines := preamble + sections + closing;
    if closing != [] {
      assert lines[|lines| - 1] == closing[|closing| - 1];
    } else if concepts != [] {
      SectionsEndInALine(concepts, marks, 1);
      assert lines[|lines| - 1] == sections[|sections| - 1];
    } else {
      assert lines[|lines| - 1] == preamble[|preamble| - 1];
    }
    LinesOfJoin(lines);
    ReadBackAppend(preamble + sections, closing);
    ReadBackAppend(preamble, sections);
    SingleLinesReadBack(preamble);
    SingleLinesReadBack(closing);
    SectionsReadBack(concepts, marks, 1);
  }

  /** Parsing a worksheet, blank or filled, gives every concept back in order with its number, id, category,
      printed title and two-decimal confidence, and exactly the boxes that were ticked. */
  lemma {:induction false} WorksheetRoundTrip(preamble: seq<string>, concepts: seq<Concept>, marks: seq<Marks>,
                                              closing: seq<string>)
    requires |concepts| == |marks| && forall c | c in concepts :: c.confidence >= 0.0 && Readable(c)
    requires preamble != [] && forall l | l in preamble :: SingleLine(l) && HeaderIn(l).None?
    requires forall l | l in closing :: Closing(l)
    ensures ParseLines(Lines(WorksheetText(preamble, concepts, marks, closing))) == AllExpected(concepts, marks, 1)
  {
    var read := ReadSections(concepts, marks, 1);
    WorksheetReadsBack(preamble, concepts, marks, closing);
    Associative(preamble, read, closing);
    SkipPreamble(preamble, read + closing);
    SectionsRoundTrip(concepts, marks, 1, closing);
  }

  // ---------------------------------------------------------------------------------------
  // Exactly when a content does no harm
  // ---------------------------------------------------------------------------------------

  /** What a section by itself parses to once printed, filled and read back. */
  function Reread(idx: nat, c: Concept, m: Marks): seq<Parsed>
    requires c.confidence >= 0.0
  {
    ParseLines(Lines(Join(Section(idx, c, m))))
  }

  lemma SectionReads(idx: nat, c: Concept, m: Marks)
    requires WellFormed(Plain(c))
    ensures Reread(idx, c, m) == ParseLines(ReadSection(idx, c, m))
  {
    var lines := Section(idx, c, m);
    assert lines[|lines| - 1] == SECTION_END[4];
    LinesOfJoin(lines);
    SectionReadsBack(idx, c, m);
  }

  /** Without a marker in the content, the section is one section, reported as above. */
  lemma UnmarkedIsReported(idx: nat, c: Concept, m: Marks)
    requires WellFormed(Plain(c)) && forall l | l in ContentLines(c) :: !(MARKER <= l)
    ensures Reread(idx, c, m) == [Reported(idx, c, m)]
  {
    var header, body := HeaderLine(idx, c), ReadBody(c, m);
    SectionReads(idx, c, m);
    HeaderRoundTrip(idx, c);
    FrameHasNoMarker(c, m);
    forall l | l in body ensures !(MARKER <= l) {
      assert l in BeforeContent(c) + AfterContent(c, m) || l in ContentLines(c);
    }
    ParseFirst(header, idx, c.title[..Min(80, |c.title|)], body, []);
    assert [header] + body + [] == [header] + body && body + [] == body;
    assert ParseLines([]) == [];
    BodyIsReported(idx, c, m, []);
  }

  /** A marker in the content cuts the body off before its boxes, so that no tick is read. */
  lemma MarkedIgnoresTicks(idx: nat, c: Concept, k: nat)
    requires WellFormed(Plain(c)) && k < |ContentLines(c)| && MARKER <= ContentLines(c)[k]
    requires forall i | 0 <= i < k :: !(MARKER <= ContentLines(c)[i])
    ensures forall m :: Reread(idx, c, m) != []
                        && Reread(idx, c, m)[0] == ParseBody(idx, c.title[..Min(80, |c.title|)],
                                                             BeforeContent(c) + ContentLines(c)[..k])
  {
    forall m ensures Reread(idx, c, m) != []
                     && Reread(idx, c, m)[0] == ParseBody(idx, c.title[..Min(80, |c.title|)],
                                                          BeforeContent(c) + ContentLines(c)[..k]) {
      var body, rest := BeforeContent(c) + ContentLines(c)[..k], ContentLines(c)[k..] + AfterContent(c, m);
      SectionReads(idx, c, m);
      HeaderRoundTrip(idx, c);
      FrameHasNoMarker(c, m);
      forall l | l in body ensures !(MARKER <= l) {
        assert l in BeforeContent(c) + AfterContent(c, m) || l in ContentLines(c)[..k];
      }
      SplitBody(HeaderLine(idx, c), BeforeContent(c), ContentLines(c), AfterContent(c, m), k);
      ParseFirst(HeaderLine(idx, c), idx, c.title[..Min(80, |c.title|)], body, rest);
    }
  }

  lemma SplitBody<T>(header: T, before: seq<T>, content: seq<T>, after: seq<T>, k: nat)
    requires k < |content|
    ensures [header] + (before + content + after) == [header] + (before + content[..k]) + (content[k..] + after)
    ensures (content[k..] + after)[0] == content[k]
  {
    assert content == content[..k] + content[k..];
  }

  lemma FirstMarker(lines: seq<string>) returns (k: nat)
    requires exists l :: l in lines && MARKER <= l
    ensures k < |lines| && MARKER <= lines[k] && forall i | 0 <= i < k :: !(MARKER <= lines[i])
  {
    k := 0;
    while !(MARKER <= lines[k])
      invariant k < |lines| && forall i | 0 <= i < k :: !(MARKER <= lines[i])
      decreases |lines| - k
    {
      assert exists i :: k < i < |lines| && MARKER <= lines[i];
      k := k + 1;
    }
  }

  /** However a section is filled, it reads back as what was printed and ticked, if and only if its content is
      quiet. */
  lemma ContentRoundTripIff(idx: nat, c: Concept)
    requires WellFormed(Plain(c))
    ensures (forall m: Marks :: Reread(idx, c, m) == [Expected(idx, c, m)]) <==> Quiet(c)
  {
    if exists l :: l in ContentLines(c) && MARKER <= l {
      MarkedIsNotExpected(idx, c);
    } else {
      forall m: Marks ensures Reread(idx, c, m) == [Reported(idx, c, m)] {
        UnmarkedIsReported(idx, c, m);
      }
      if Quiet(c) {
        forall m: Marks ensures Reread(idx, c, m) == [Expected(idx, c, m)] {
          QuietIsExpected(idx, c, m);
        }
      } else {
        LoudIsNotExpected(idx, c);
      }
    }
  }

  lemma MarkedIsNotExpected(idx: nat, c: Concept)
    requires WellFormed(Plain(c)) && exists l :: l in ContentLines(c) && MARKER <= l
    ensures exists m: Marks :: Reread(idx, c, m) != [Expected(idx, c, m)]
  {
    var k := FirstMarker(ContentLines(c));
    var first := ParseBody(idx, c.title[..Min(80, |c.title|)], BeforeContent(c) + ContentLines(c)[..k]);
    MarkedIgnoresTicks(idx, c, k);
    var m := CannotFollowTicks(idx, c, first);
    assert Reread(idx, c, m)[0] == first;
  }

  /** No one report is right for every filling. */
  lemma CannotFollowTicks(idx: nat, c: Concept, first: Parsed) returns (m: Marks)
    requires c.confidence >= 0.0
    ensures first != Expected(idx, c, m)
  {
    TickedAndBlank(idx, c, T1, True);
    m := if first.tier == None then Marks({T1}, {True}) else Marks({}, {});
  }

  lemma LoudIsNotExpected(idx: nat, c: Concept)
    requires c.confidence >= 0.0 && (forall l | l in ContentLines(c) :: !(MARKER <= l)) && !Quiet(c)
    ensures Reported(idx, c, Marks({}, {})) != Expected(idx, c, Marks({}, {}))
  {
    PickedFromThree(T1, T2, T3, {});
    PickedFromThree(True, Partial, False, {});
    var tiers, truths := TickedTiers(ContentLines(c)), TickedTruths(ContentLines(c));
    assert tiers + [] == tiers && truths + [] == truths;
  }

  // ---------------------------------------------------------------------------------------
  // A content that ticks a box
  // ---------------------------------------------------------------------------------------

  const TICKING_CONTENT := "x\r- [x] T1"

  lemma ReturnReads(second: string)
    requires SingleLine(second)
    ensures Newlines("\r" + second) == "\n" + second
  {
    assert ("\r" + second)[1..] == second;
    NoReturns(second);
  }

  /** A carriage return ends a line. */
  lemma ReturnEndsALine(first: string, second: string)
    requires SingleLine(first) && SingleLine(second)
    ensures Lines(first + ("\r" + second)) == [first, second]
  {
    NewlinesAppend(first, "\r" + second);
    NoReturns(first);
    ReturnReads(second);
    Associative(first, "\n", second);
    SplitAppend(first, '\n', second);
    SplitWhole(first, '\n');
    SplitWhole(second, '\n');
  }

  /** The content line is read as two lines, the second of them a ticked box. */
  lemma TickingContentLines(c: Concept)
    requires c.content == TICKING_CONTENT
    ensures ContentLines(c) == [Item("**Content:**", "x"), Box(true, "T1")]
  {
    var first, second := Item("**Content:**", "x"), Box(true, "T1");
    assert ContentItem(c) == first + ("\r" + second);
    ReturnEndsALine(first, second);
    assert second[|second| - 1] == '1';
    assert Ended(ContentItem(c)) == ContentItem(c);
  }

  lemma OneTick(first: string, box: string)
    requires Checkbox(first).None? && Checkbox(box) == Some((true, "T1"))
    ensures TickedTiers([first, box]) == [T1]
  {
    NothingTicked([first]);
    TickedAppend([first], [box]);
    assert [box][..0] == [] && [first] + [box] == [first, box];
  }

  lemma TickingContentTicks(c: Concept)
    requires WellFormed(Plain(c)) && c.content == TICKING_CONTENT
    ensures TickedTiers(ContentLines(c)) == [T1] && forall l | l in ContentLines(c) :: !(MARKER <= l)
  {
    var first, box := ContentItem(Plain(c)), Box(true, "T1");
    TickingContentLines(c);
    BeforeIsInert(c);
    assert first in BeforeContent(c) + [first];
    BoxRoundTrip(true, "T1");
    OneTick(first, box);
    assert box[0] == '-';
  }

  /** A content that holds a carriage return and a ticked box: the blank printed section of the concept is read as
      ticked, although no box of it is. */
  lemma CarriageReturnTicksABox(idx: nat, c: Concept)
    requires WellFormed(Plain(c)) && c.content == TICKING_CONTENT
    ensures !Quiet(c)
    ensures var parsed := Reread(idx, c, Marks({}, {}));
            |parsed| == 1 && parsed[0].tier == Some(T1) && Expected(idx, c, Marks({}, {})).tier == None
  {
    TickingContentTicks(c);
    UnmarkedIsReported(idx, c, Marks({}, {}));
    PickedFromThree(T1, T2, T3, {});
    assert [T1] + [] == [T1];
  }

  /** There is such a concept. */
  lemma TickingConceptExists()
    ensures WellFormed(Plain(Concept("c", "t", TICKING_CONTENT, "k", 0.5, [])))
  {
    forall part | part in {CATEGORY_LABEL, CONFIDENCE_LABEL, NOTES_LABEL}
      ensures !Occurs(part, "c") && !Occurs(part, "k") && !Occurs(part, "t") && !Occurs(part, "x")
    {
      TooShort(part, "c");
      TooShort(part, "k");
      TooShort(part, "t");
      TooShort(part, "x");
    }
  }
}
