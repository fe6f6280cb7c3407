/** The baseline evidence on documents and atlas segments: a reverse index in which the first segment wins,
    and the classification of documents by where the code they mention lies. */
module SegmentEvidence {
  import opened Prelude

  /** A segment with its files; a document with the distinct paths it mentions. Both lists are dictionaries in
      insertion order. */
  datatype Segment = Segment(id: string, files: seq<string>)
  datatype Document = Document(path: string, mentions: seq<string>)

  type Index = map<string, string>

  // ---------------------------------------------------------------------------------------
  // The reverse index
  // ---------------------------------------------------------------------------------------

  /** The first segment that lists a file. */
  function FirstSegment(segments: seq<Segment>, file: string): Option<string> {
    if segments == [] then None
    else if file in segments[0].files then Some(segments[0].id)
    else FirstSegment(segments[1..], file)
  }

  lemma {:induction false} FirstSegmentAppend(segments: seq<Segment>, last: Segment, file: string)
    ensures FirstSegment(segments + [last], file)
         == if FirstSegment(segments, file).Some? then FirstSegment(segments, file)
            else if file in last.files then Some(last.id) else None
  {
    if segments != [] {
      assert (segments + [last])[1..] == segments[1..] + [last];
      FirstSegmentAppend(segments[1..], last, file);
    }
  }

  ghost predicate Indexes(index: Index, segments: seq<Segment>) {
    forall file :: FirstSegment(segments, file) == if file in index then Some(index[file]) else None
  }

  /** `file_to_segment`. */
  method FileToSegment(segments: seq<Segment>) returns (index: Index)
    ensures Indexes(index, segments)
  {
    index := map[];
    for i := 0 to |segments|
      invariant Indexes(index, segments[..i])
    {
      index := AddSegment(index, segments[..i], segments[i]);
      assert segments[..i] + [segments[i]] == segments[..i + 1];
    }
    assert segments[..|segments|] == segments;
  }

  method AddSegment(index: Index, ghost before: seq<Segment>, segment: Segment) returns (r: Index)
    requires Indexes(index, before)
    ensures Indexes(r, before + [segment])
  {
    r := index;
    for j := 0 to |segment.files|
      invariant forall f :: f in r <==> f in index || f in segment.files[..j]
      invariant forall f | f in r :: r[f] == if f in index then index[f] else segment.id
    {
      if segment.files[j] !in r {
        r := r[segment.files[j] := segment.id];
      }
    }
    assert segment.files[..|segment.files|] == segment.files;
    forall file ensures FirstSegment(before + [segment], file) == if file in r then Some(r[file]) else None {
      FirstSegmentAppend(before, segment, file);
    }
  }

  // ---------------------------------------------------------------------------------------
  // One document
  // ---------------------------------------------------------------------------------------

  predicate EndsWithMd(path: string) { |path| >= 3 && path[|path| - 3..] == ".md" }

  ghost predicate NamesDocument(path: string) { exists stem: string :: stem + ".md" == path }

  lemma MdNamesDocument(path: string)
    ensures EndsWithMd(path) <==> NamesDocument(path)
  {
    if EndsWithMd(path) {
      assert path[..|path| - 3] + ".md" == path;
    }
  }

  /** The mentioned paths that are no documents. */
  function CodePaths(mentions: seq<string>): (r: seq<string>)
    ensures forall p :: p in r <==> p in mentions && !EndsWithMd(p)
  {
    if mentions == [] then []
    else
      var before, last := CodePaths(mentions[..|mentions| - 1]), mentions[|mentions| - 1];
      assert mentions == mentions[..|mentions| - 1] + [last];
      if EndsWithMd(last) then before else before + [last]
  }

  predicate Same(index: Index, seg: string, path: string) { path in index && index[path] == seg }

  /** An empty segment id counts as no segment here. */
  predicate Different(index: Index, seg: string,
                      path: string) { path in index && index[path] != "" && index[path] != seg }

  function CountSame(index: Index, seg: string, paths: seq<string>): nat {
    if paths == [] then 0
    else CountSame(index, seg, paths[..|paths| - 1]) + if Same(index, seg, paths[|paths| - 1]) then 1 else 0
  }

  function CountDifferent(index: Index, seg: string, paths: seq<string>): nat {
    if paths == [] then 0
    else CountDifferent(index, seg, paths[..|paths| - 1]) + if Different(index, seg, paths[|paths| - 1]) then 1 else 0
  }

  lemma {:induction false} CountsArePositive(index: Index, seg: string, paths: seq<string>)
    ensures CountSame(index, seg, paths) > 0 <==> exists p :: p in paths && Same(index, seg, p)
    ensures CountDifferent(index, seg, paths) > 0 <==> exists p :: p in paths && Different(index, seg, p)
  {
    if paths != [] {
      var before, last := paths[..|paths| - 1], paths[|paths| - 1];
      CountsArePositive(index, seg, before);
      assert paths == before + [last];
      assert last in paths;
    }
  }

  /** The cross-segment edges a list of paths gives a document of a segment. */
  function Edges(index: Index, seg: string, paths: seq<string>): multiset<(string, string)> {
    if paths == [] then multiset{}
    else
      var before, last := Edges(index, seg, paths[..|paths| - 1]), paths[|paths| - 1];
      if Different(index, seg, last) then before + multiset{(seg, index[last])} else before
  }

  lemma {:induction false} EdgesCount(index: Index, seg: string, paths: seq<string>)
    ensures |Edges(index, seg, paths)| == CountDifferent(index, seg, paths)
    ensures forall e | e in Edges(index, seg, paths) :: e.0 == seg && e.1 != seg
  {
    if paths != [] {
      EdgesCount(index, seg, paths[..|paths| - 1]);
    }
  }

  /** The five counted classes, and the documents none of the branches counts. */
  datatype Kind = Unsegmented | NoMentions | InSegment | Orphan | Partial | Uncounted

  /** The definitions of the classes, by what exists among the mentions. */
  ghost predicate IsKind(index: Index, d: Document, k: Kind) {
    var code := CodePaths(d.mentions);
    if d.path !in index then k == Unsegmented
    else
      var same := exists p :: p in code && Same(index, index[d.path], p);
      var different := exists p :: p in code && Different(index, index[d.path], p);
      match k
      case Unsegmented => false
      case NoMentions => code == []
      case InSegment => same && !different
      case Orphan => different && !same
      case Partial => same && different
      case Uncounted => code != [] && !same && !different
  }

  function KindOf(index: Index, d: Document): Kind {
    if d.path !in index then Unsegmented
    else
      var seg, code := index[d.path], CodePaths(d.mentions);
      var same, different := CountSame(index, seg, code), CountDifferent(index, seg, code);
      if code == [] then NoMentions
      else if same > 0 && different == 0 then InSegment
      else if different > 0 && same == 0 then Orphan
      else if same > 0 && different > 0 then Partial
      else Uncounted
  }

  /** Every document is in exactly one class or in the remainder. */
  lemma KindIsUnique(index: Index, d: Document, k: Kind)
    ensures IsKind(index, d, k) <==> KindOf(index, d) == k
  {
    if d.path in index {
      CountsArePositive(index, index[d.path], CodePaths(d.mentions));
      assert CodePaths(d.mentions) == [] ==> forall p :: p !in CodePaths(d.mentions);
    }
  }

  /** With non-empty segment ids the remainder holds exactly the segmented documents with code mentions of which
      none lies in any segment. */
  lemma RemainderIsUnresolved(segments: seq<Segment>, index: Index, d: Document)
    requires Indexes(index, segments) && forall s | s in segments :: s.id != ""
    ensures KindOf(index, d) == Uncounted <==>
              && FirstSegment(segments, d.path).Some?
              && (exists p :: p in d.mentions && !NamesDocument(p))
              && (forall p | p in d.mentions && !NamesDocument(p) :: FirstSegment(segments, p).None?)
  {
    RemainderByPaths(segments, index, d);
    forall p: string ensures EndsWithMd(p) <==> NamesDocument(p) {
      MdNamesDocument(p);
    }
  }

  lemma RemainderByPaths(segments: seq<Segment>, index: Index, d: Document)
    requires Indexes(index, segments) && forall s | s in segments :: s.id != ""
    ensures KindOf(index, d) == Uncounted <==>
              && FirstSegment(segments, d.path).Some?
              && (exists p :: p in d.mentions && !EndsWithMd(p))
              && (forall p | p in d.mentions && !EndsWithMd(p) :: FirstSegment(segments, p).None?)
  {
    KindIsUnique(index, d, Uncounted);
    var code := CodePaths(d.mentions);
    assert code != [] <==> exists p :: p in d.mentions && !EndsWithMd(p) by {
      if code != [] {
        assert code[0] in code;
      }
    }
    forall p ensures p in index ==> index[p] != "" {
      IdsAreNonEmpty(segments, p);
    }
  }

  lemma {:induction false} IdsAreNonEmpty(segments: seq<Segment>, file: string)
    requires forall s | s in segments :: s.id != ""
    ensures FirstSegment(segments, file) != Some("")
  {
    if segments != [] {
      IdsAreNonEmpty(segments[1..], file);
    }
  }

  // ---------------------------------------------------------------------------------------
  // The classification loop
  // ---------------------------------------------------------------------------------------

  datatype Report = Report(inSegment: nat, orphan: nat, partial: nat, noMentions: nat, unsegmented: nat,
      edges: multiset<(string, string)>)

  function CountKind(index: Index, docs: seq<Document>, k: Kind): nat {
    if docs == [] then 0
    else CountKind(index, docs[..|docs| - 1], k) + if KindOf(index, docs[|docs| - 1]) == k then 1 else 0
  }

  /** The edges of the fully orphaned documents. */
  function OrphanEdges(index: Index, docs: seq<Document>): multiset<(string, string)> {
    if docs == [] then multiset{}
    else
      var before, last := OrphanEdges(index, docs[..|docs| - 1]), docs[|docs| - 1];
      if KindOf(index, last) == Orphan then before + Edges(index, index[last.path], CodePaths(last.mentions))
          else before
  }

  /** The mentions of other segments, summed over the fully orphaned documents. */
  function OrphanMentions(index: Index, docs: seq<Document>): nat {
    if docs == [] then 0
    else
      var before, last := OrphanMentions(index, docs[..|docs| - 1]), docs[|docs| - 1];
      if KindOf(index, last) == Orphan then before + CountDifferent(index, index[last.path], CodePaths(last.mentions))
          else before
  }

  ghost predicate Tallies(r: Report, index: Index, docs: seq<Document>) {
    && r.inSegment == CountKind(index, docs, InSegment) && r.orphan == CountKind(index, docs, Orphan)
    && r.partial == CountKind(index, docs, Partial) && r.noMentions == CountKind(index, docs, NoMentions)
    && r.unsegmented == CountKind(index, docs, Unsegmented)
    && r.edges == OrphanEdges(index, docs)
  }

  /** The classification loop. */
  method Classify(index: Index, docs: seq<Document>) returns (r: Report)
    ensures Tallies(r, index, docs)
  {
    r := Report(0, 0, 0, 0, 0, multiset{});
    for i := 0 to |docs|
      invariant Tallies(r, index, docs[..i])
    {
      assert docs[..i + 1][..i] == docs[..i];
      TallyOne(index, r, docs[i], docs[..i]);
      r := ClassifyOne(index, r, docs[i]);
      assert docs[..i] + [docs[i]] == docs[..i + 1];
    }
    assert docs[..|docs|] == docs;
  }

  /** The report with one more document of a kind, and its edges. */
  function Counted(r: Report, k: Kind, edges: multiset<(string, string)>): Report {
    match k
    case Unsegmented => r.(unsegmented := r.unsegmented + 1)
    case NoMentions => r.(noMentions := r.noMentions + 1)
    case InSegment => r.(inSegment := r.inSegment + 1)
    case Orphan => r.(orphan := r.orphan + 1, edges := r.edges + edges)
    case Partial => r.(partial := r.partial + 1)
    case Uncounted => r
  }

  lemma KindSnoc(index: Index, docs: seq<Document>, d: Document, k: Kind)
    ensures CountKind(index, docs + [d], k) == CountKind(index, docs, k) + if KindOf(index, d) == k then 1 else 0
  {
    assert (docs + [d])[..|docs + [d]| - 1] == docs;
  }

  lemma TallyOne(index: Index, before: Report, d: Document, docs: seq<Document>)
    requires Tallies(before, index, docs)
    ensures var edges := if d.path in index then Edges(index, index[d.path], CodePaths(d.mentions)) else multiset{};
            Tallies(Counted(before, KindOf(index, d), edges), index, docs + [d])
  {
    KindSnoc(index, docs, d, InSegment);
    KindSnoc(index, docs, d, Orphan);
    KindSnoc(index, docs, d, Partial);
    KindSnoc(index, docs, d, NoMentions);
    KindSnoc(index, docs, d, Unsegmented);
    EdgesSnoc(index, docs, d);
  }

  lemma EdgesSnoc(index: Index, docs: seq<Document>, d: Document)
    ensures KindOf(index, d) == Orphan ==> d.path in index
    ensures OrphanEdges(index, docs + [d])
         == if KindOf(index, d) == Orphan
            then OrphanEdges(index, docs) + Edges(index, index[d.path], CodePaths(d.mentions))
                else OrphanEdges(index, docs)
  {
    assert (docs + [d])[..|docs + [d]| - 1] == docs;
  }

  /** The body of the loop. */
  method ClassifyOne(index: Index, before: Report, d: Document) returns (r: Report)
    ensures r
            == Counted(before, KindOf(index, d), if d.path in index
                then Edges(index, index[d.path], CodePaths(d.mentions)) else multiset{})
  {
    if d.path !in index {
      return before.(unsegmented := before.unsegmented + 1);
    }
    var code := CodePaths(d.mentions);
    if code == [] {
      return before.(noMentions := before.noMentions + 1);
    }
    var seg := index[d.path];
    var same, different := CountSame(index, seg, code), CountDifferent(index, seg, code);
    r := before;
    if same > 0 && different == 0 {
      r := r.(inSegment := r.inSegment + 1);
    } else if different > 0 && same == 0 {
      var edges := CountEdges(index, seg, code, r.edges);
      r := r.(orphan := r.orphan + 1, edges := edges);
    } else if same > 0 && different > 0 {
      r := r.(partial := r.partial + 1);
    }
  }

  method CountEdges(index: Index, seg: string, paths: seq<string>, before: multiset<(string, string)>)
    returns (r: multiset<(string, string)>)
    ensures r == before + Edges(index, seg, paths)
  {
    r := before;
    for j := 0 to |paths|
      invariant r == before + Edges(index, seg, paths[..j])
    {
      assert paths[..j + 1][..j] == paths[..j];
      if paths[j] in index && index[paths[j]] != "" && index[paths[j]] != seg {
        r := r + multiset{(seg, index[paths[j]])};
      }
    }
    assert paths[..|paths|] == paths;
  }

  // ---------------------------------------------------------------------------------------
  // Conservation
  // ---------------------------------------------------------------------------------------

  lemma {:induction false} KindsCoverDocuments(index: Index, docs: seq<Document>)
    ensures CountKind(index, docs, InSegment) + CountKind(index, docs, Orphan) + CountKind(index, docs, Partial)
            + CountKind(index, docs, NoMentions) + CountKind(index, docs, Unsegmented)
                + CountKind(index, docs, Uncounted) == |docs|
    ensures |OrphanEdges(index, docs)| == OrphanMentions(index, docs)
  {
    if docs != [] {
      var last := docs[|docs| - 1];
      KindsCoverDocuments(index, docs[..|docs| - 1]);
      if last.path in index {
        EdgesCount(index, index[last.path], CodePaths(last.mentions));
      }
    }
  }

  /** The five counters and the remainder add up to the documents; the edge total is the number of mentions of
      other segments over the fully orphaned documents. */
  lemma EvidenceIsConserved(index: Index, docs: seq<Document>, r: Report)
    requires Tallies(r, index, docs)
    ensures r.inSegment + r.orphan + r.partial + r.noMentions + r.unsegmented + CountKind(index, docs, Uncounted)
            == |docs|
    ensures |r.edges| == OrphanMentions(index, docs)
    ensures r.orphan == 0 <==> r.edges == multiset{}
  {
    KindsCoverDocuments(index, docs);
    OrphansHaveEdges(index, docs);
  }

  lemma {:induction false} OrphansHaveEdges(index: Index, docs: seq<Document>)
    ensures CountKind(index, docs, Orphan) <= |OrphanEdges(index, docs)|
    ensures CountKind(index, docs, Orphan) == 0 ==> OrphanEdges(index, docs) == multiset{}
  {
    if docs != [] {
      var last := docs[|docs| - 1];
      OrphansHaveEdges(index, docs[..|docs| - 1]);
      if last.path in index {
        EdgesCount(index, index[last.path], CodePaths(last.mentions));
      }
    }
  }
}
