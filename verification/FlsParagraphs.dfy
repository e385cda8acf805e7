/** The paragraphs of the FLS documents (exts/coding_guidelines/fls_diff.py, lines 10-30), as the diff takes them. */
module FlsParagraphs {
  import opened Strings
  import opened AuditState
  import opened AuditItems
  import opened AuditDrift

  datatype ParagraphData = ParagraphData(id: string, checksum: string, number: string, link: string)

  datatype SectionData = SectionData(title: string, paragraphs: seq<ParagraphData>)

  datatype DocumentData = DocumentData(title: string, sections: seq<SectionData>)

  /** A paragraph in its place: its id, and what is extracted of it. */
  datatype Placed = Placed(id: string, paragraph: Paragraph)

  function Place(d: DocumentData, s: SectionData, p: ParagraphData): Placed {
    Placed(p.id, Paragraph(p.checksum, p.number, p.link, d.title, s.title))
  }

  function PlacedIn(d: DocumentData, s: SectionData, ps: seq<ParagraphData>): seq<Placed> {
    if ps == [] then [] else PlacedIn(d, s, ps[..|ps| - 1]) + [Place(d, s, ps[|ps| - 1])]
  }

  function PlacedInSections(d: DocumentData, ss: seq<SectionData>): seq<Placed> {
    if ss == [] then []
    else PlacedInSections(d, ss[..|ss| - 1]) + PlacedIn(d, ss[|ss| - 1], ss[|ss| - 1].paragraphs)
  }

  /** All paragraphs of the documents, in their order. */
  function PlacedInDocuments(ds: seq<DocumentData>): seq<Placed> {
    if ds == [] then []
    else PlacedInDocuments(ds[..|ds| - 1]) + PlacedInSections(ds[|ds| - 1], ds[|ds| - 1].sections)
  }

  predicate IsFlsId(id: string) { StartsWith(id, "fls_") }

  /** The dictionary after filing the paragraphs one after the other. */
  function Filed(ps: seq<Placed>): Paragraphs {
    if ps == [] then map[]
    else
      var last := ps[|ps| - 1];
      var m := Filed(ps[..|ps| - 1]);
      if IsFlsId(last.id) then m[last.id := last.paragraph] else m
  }

  lemma FiledNext(ps: seq<Placed>, x: Placed)
    ensures Filed(ps + [x]) == if IsFlsId(x.id) then Filed(ps)[x.id := x.paragraph] else Filed(ps)
  {
    assert (ps + [x])[..|ps|] == ps;
  }

  /** The innermost loop. */
  method ReadSection(before: Paragraphs, d: DocumentData, s: SectionData, ghost read: seq<Placed>)
    returns (paragraphs: Paragraphs)
    requires before == Filed(read)
    ensures paragraphs == Filed(read + PlacedIn(d, s, s.paragraphs))
  {
    hide Filed;
    paragraphs := before;
    assert read + [] == read;
    for k := 0 to |s.paragraphs|
      invariant paragraphs == Filed(read + PlacedIn(d, s, s.paragraphs[..k]))
    {
      var p := s.paragraphs[k];
      ghost var placed := PlacedIn(d, s, s.paragraphs[..k]);
      assert s.paragraphs[..k + 1][..k] == s.paragraphs[..k];
      assert read + (placed + [Place(d, s, p)]) == (read + placed) + [Place(d, s, p)];
      FiledNext(read + placed, Place(d, s, p));
      if p.id == "" || !StartsWith(p.id, "fls_") { continue; }
      paragraphs := paragraphs[p.id := Paragraph(p.checksum, p.number, p.link, d.title, s.title)];
    }
    assert s.paragraphs[..|s.paragraphs|] == s.paragraphs;
  }

  /** The loop over the sections of a document. */
  method ReadDocument(before: Paragraphs, d: DocumentData, ghost read: seq<Placed>) returns (paragraphs: Paragraphs)
    requires before == Filed(read)
    ensures paragraphs == Filed(read + PlacedInSections(d, d.sections))
  {
    hide Filed;
    hide PlacedIn;
    paragraphs := before;
    assert read + [] == read;
    for j := 0 to |d.sections|
      invariant paragraphs == Filed(read + PlacedInSections(d, d.sections[..j]))
    {
      ghost var placed := PlacedInSections(d, d.sections[..j]);
      assert d.sections[..j + 1][..j] == d.sections[..j];
      assert read + (placed + PlacedIn(d, d.sections[j], d.sections[j].paragraphs)) ==
             (read + placed) + PlacedIn(d, d.sections[j], d.sections[j].paragraphs);
      paragraphs := ReadSection(paragraphs, d, d.sections[j], read + placed);
    }
    assert d.sections[..|d.sections|] == d.sections;
  }

  /** `extract_paragraphs`. */
  method ExtractParagraphs(ds: seq<DocumentData>) returns (paragraphs: Paragraphs)
    ensures paragraphs == Filed(PlacedInDocuments(ds))
  {
    hide PlacedInSections;
    paragraphs := map[];
    for i := 0 to |ds|
      invariant paragraphs == Filed(PlacedInDocuments(ds[..i]))
    {
      assert ds[..i + 1][..i] == ds[..i];
      paragraphs := ReadDocument(paragraphs, ds[i], PlacedInDocuments(ds[..i]));
    }
    assert ds[..|ds|] == ds;
  }

  /** No paragraph behind the `i`-th has its id. */
  predicate IsLast(ps: seq<Placed>, i: nat)
    requires i < |ps|
  {
    forall j | i < j < |ps| :: ps[j].id != ps[i].id
  }

  /** The extracted ids are the FLS ids among the paragraphs, and each has what the last paragraph of that id says. */
  lemma {:induction false} FiledMeaning(ps: seq<Placed>)
    ensures forall id :: id in Filed(ps) <==> IsFlsId(id) && exists i :: 0 <= i < |ps| && ps[i].id == id
    ensures forall i :: 0 <= i < |ps| && IsFlsId(ps[i].id) && IsLast(ps, i) ==>
      ps[i].id in Filed(ps) && Filed(ps)[ps[i].id] == ps[i].paragraph
    decreases |ps|
  {
    hide IsFlsId;
    if ps != [] {
      var n := |ps| - 1;
      var front := ps[..n];
      FiledMeaning(front);
      forall id | id in Filed(ps) ensures IsFlsId(id) && exists i :: 0 <= i < |ps| && ps[i].id == id {
        if id in Filed(front) {
          var i :| 0 <= i < |front| && front[i].id == id;
          assert ps[i].id == id;
        } else {
          assert ps[n].id == id;
        }
      }
      forall i | 0 <= i < |ps| && IsFlsId(ps[i].id)
        ensures ps[i].id in Filed(ps) && (IsLast(ps, i) ==> Filed(ps)[ps[i].id] == ps[i].paragraph)
      {
        if i < n {
          assert front[i] == ps[i];
          if IsLast(ps, i) {
            assert ps[n].id != ps[i].id;
            assert IsLast(front, i);
          }
        }
      }
    }
  }

  /** The report of any two extractions is accepted: no extracted id is empty, and none is reported twice. */
  lemma ExtractionsAreAccepted(live: seq<Placed>, locked: seq<Placed>)
    ensures Canonical(Diff(Filed(live), Filed(locked))).Ok?
  {
    FiledMeaning(live);
    FiledMeaning(locked);
    CanonicalAccepts(Filed(live), Filed(locked));
    assert !IsFlsId("");
  }
}
