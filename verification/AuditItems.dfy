/** Drift items: the paragraph diff (exts/coding_guidelines/fls_diff.py), the item map of a report and the
    difference of two item maps (scripts/fls_audit_issue_lib/state.py). */
module AuditItems {
  import opened Strings
  import opened Json
  import opened AuditState

  datatype Paragraph = Paragraph(checksum: string, section: string, link: string, document: string, title: string)

  type Paragraphs = map<string, Paragraph>

  datatype Entry = Entry(flsId: string, locked: Option<Paragraph>, live: Option<Paragraph>,
                         contentChanged: bool, sectionChanged: bool)

  /** A header change or a section reorder: its identity, when it has one, and the whole entry. */
  datatype Structural = Structural(sectionId: string, value: Json)

  datatype Changes = Changes(added: seq<Entry>, removed: seq<Entry>, changed: seq<Entry>,
                             headers: seq<Structural>, reorders: seq<Structural>)

  // ----- diff_paragraphs -----

  function AddedEntries(ids: seq<string>, live: Paragraphs): (r: seq<Entry>)
    requires forall id :: id in ids ==> id in live
    ensures |r| == |ids| && forall i :: 0 <= i < |ids| ==> r[i] == Entry(ids[i], None, Some(live[ids[i]]), false, false)
  {
    seq(|ids|, i requires 0 <= i < |ids| => Entry(ids[i], None, Some(live[ids[i]]), false, false))
  }

  function RemovedEntries(ids: seq<string>, locked: Paragraphs): (r: seq<Entry>)
    requires forall id :: id in ids ==> id in locked
    ensures |r| == |ids| && forall i :: 0 <= i < |ids| ==>
      r[i] == Entry(ids[i], Some(locked[ids[i]]), None, false, false)
  {
    seq(|ids|, i requires 0 <= i < |ids| => Entry(ids[i], Some(locked[ids[i]]), None, false, false))
  }

  predicate Differs(live: Paragraph, locked: Paragraph) {
    live.checksum != locked.checksum || live.section != locked.section
  }

  function ChangedEntry(id: string, live: Paragraph, locked: Paragraph): Entry {
    Entry(id, Some(locked), Some(live), live.checksum != locked.checksum, live.section != locked.section)
  }

  /** The entries of the common paragraphs that differ, in the order of their ids. */
  function ChangedEntries(ids: seq<string>, live: Paragraphs, locked: Paragraphs): seq<Entry>
    requires forall id :: id in ids ==> id in live && id in locked
  {
    if ids == [] then []
    else
      var id := ids[|ids| - 1];
      ChangedEntries(ids[..|ids| - 1], live, locked) +
      (if Differs(live[id], locked[id]) then [ChangedEntry(id, live[id], locked[id])] else [])
  }

  function Diff(live: Paragraphs, locked: Paragraphs): Changes {
    Changes(AddedEntries(Sorted(live.Keys - locked.Keys), live),
            RemovedEntries(Sorted(locked.Keys - live.Keys), locked),
            ChangedEntries(Sorted(live.Keys * locked.Keys), live, locked), [], [])
  }

  /** The loop over the common ids. */
  method DiffCommon(common: seq<string>, live: Paragraphs, locked: Paragraphs) returns (changed: seq<Entry>)
    requires forall id :: id in common ==> id in live && id in locked
    ensures changed == ChangedEntries(common, live, locked)
  {
    changed := [];
    for i := 0 to |common|
      invariant changed == ChangedEntries(common[..i], live, locked)
    {
      var id := common[i];
      assert common[..i + 1][..i] == common[..i];
      var contentChanged := live[id].checksum != locked[id].checksum;
      var sectionChanged := live[id].section != locked[id].section;
      if contentChanged || sectionChanged {
        changed := changed + [Entry(id, Some(locked[id]), Some(live[id]), contentChanged, sectionChanged)];
      }
    }
    assert common[..|common|] == common;
  }

  method DiffParagraphs(live: Paragraphs, locked: Paragraphs) returns (changes: Changes)
    ensures changes == Diff(live, locked)
  {
    var changed := DiffCommon(Sorted(live.Keys * locked.Keys), live, locked);
    changes := Changes(AddedEntries(Sorted(live.Keys - locked.Keys), live),
                       RemovedEntries(Sorted(locked.Keys - live.Keys), locked), changed, [], []);
  }

  /** `has_differences`. */
  predicate HasDifferences(c: Changes) { c.added != [] || c.removed != [] || c.changed != [] }

  // ----- canonical_items -----

  datatype Kind = Added | Removed | Changed

  function KindName(kind: Kind): string {
    match kind
    case Added => "added"
    case Removed => "removed"
    case Changed => "changed"
  }

  function SideJson(p: Option<Paragraph>): Json {
    match p
    case None => Obj([Field("checksum", Str("")), Field("section", Str(""))])
    case Some(p) => Obj([Field("checksum", Str(p.checksum)), Field("section", Str(p.section))])
  }

  function ItemJson(kind: Kind, e: Entry): Json {
    if kind == Changed then
      Obj([Field("content_changed", Bool(e.contentChanged)), Field("kind", Str(KindName(kind))),
           Field("live", SideJson(e.live)), Field("locked", SideJson(e.locked)),
           Field("section_changed", Bool(e.sectionChanged))])
    else
      Obj([Field("kind", Str(KindName(kind))), Field("live", SideJson(e.live)), Field("locked", SideJson(e.locked))])
  }

  const PARAGRAPH: string := "paragraph:"
  const HEADER: string := "header:"
  const REORDER: string := "reorder:"

  function ParagraphKey(id: string): string { PARAGRAPH + id }

  /** One keyed item, or the sign that its entry has no identity. */
  datatype Keyed = Keyed(key: string, item: Json, named: bool)

  function KeyedEntry(kind: Kind, e: Entry): Keyed {
    Keyed(ParagraphKey(e.flsId), ItemJson(kind, e), e.flsId != "")
  }

  function KeyedStructural(prefix: string, kind: string, s: Structural): Keyed {
    Keyed(prefix + s.sectionId, Obj([Field("kind", Str(kind)), Field("value", s.value)]), s.sectionId != "")
  }

  function KeyedEntries(kind: Kind, es: seq<Entry>): (r: seq<Keyed>)
    ensures |r| == |es| && forall i :: 0 <= i < |es| ==> r[i] == KeyedEntry(kind, es[i])
  {
    seq(|es|, i requires 0 <= i < |es| => KeyedEntry(kind, es[i]))
  }

  function KeyedStructurals(prefix: string, kind: string, es: seq<Structural>): (r: seq<Keyed>)
    ensures |r| == |es| && forall i :: 0 <= i < |es| ==> r[i] == KeyedStructural(prefix, kind, es[i])
  {
    seq(|es|, i requires 0 <= i < |es| => KeyedStructural(prefix, kind, es[i]))
  }

  /** Every entry of a report, in the order in which `canonical_items` visits them. */
  function AllKeyed(c: Changes): seq<Keyed> {
    KeyedEntries(Added, c.added) + (KeyedEntries(Removed, c.removed) + (KeyedEntries(Changed, c.changed) +
    (KeyedStructurals(HEADER, "header", c.headers) + KeyedStructurals(REORDER, "reorder", c.reorders))))
  }

  /** Filing entries one after the other; an entry without identity or with a taken key is an error. */
  function File(items: Items, ks: seq<Keyed>): (r: Result<Items>)
    ensures r.Err? ==> r.error == BadReport
    decreases |ks|
  {
    if ks == [] then Ok(items)
    else if !ks[0].named || ks[0].key in items then Err(BadReport)
    else File(items[ks[0].key := ks[0].item], ks[1..])
  }

  function Canonical(c: Changes): Result<Items> { File(map[], AllKeyed(c)) }

  lemma {:induction false} FileAppend(items: Items, a: seq<Keyed>, b: seq<Keyed>)
    ensures File(items, a + b) == match File(items, a) case Err(e) => Err(e) case Ok(m) => File(m, b)
    decreases |a|
  {
    if a == [] {
      assert a + b == b;
    } else {
      assert (a + b)[0] == a[0] && (a + b)[1..] == a[1..] + b;
      if a[0].named && a[0].key !in items {
        FileAppend(items[a[0].key := a[0].item], a[1..], b);
      }
    }
  }

  /** One pass of the inner loop over the entries of one list. */
  method FileEntries(before: Items, ks: seq<Keyed>) returns (r: Result<Items>)
    ensures r == File(before, ks)
  {
    var items := before;
    for i := 0 to |ks|
      invariant File(before, ks) == File(items, ks[i..])
    {
      if !ks[i].named { return Err(BadReport); }
      if ks[i].key in items { return Err(BadReport); }
      items := items[ks[i].key := ks[i].item];
      assert ks[i..][1..] == ks[i + 1..];
    }
    assert ks[|ks|..] == [];
    return Ok(items);
  }

  method CanonicalItems(c: Changes) returns (r: Result<Items>)
    ensures r == Canonical(c)
    ensures r.Err? ==> r.error == BadReport
  {
    var d := KeyedStructurals(HEADER, "header", c.headers);
    var e := KeyedStructurals(REORDER, "reorder", c.reorders);
    r := FileEntries(map[], KeyedEntries(Added, c.added));
    FileAppend(map[], KeyedEntries(Added, c.added),
               KeyedEntries(Removed, c.removed) + (KeyedEntries(Changed, c.changed) + (d + e)));
    if r.Err? { return; }
    FileAppend(r.value, KeyedEntries(Removed, c.removed), KeyedEntries(Changed, c.changed) + (d + e));
    r := FileEntries(r.value, KeyedEntries(Removed, c.removed));
    if r.Err? { return; }
    FileAppend(r.value, KeyedEntries(Changed, c.changed), d + e);
    r := FileEntries(r.value, KeyedEntries(Changed, c.changed));
    if r.Err? { return; }
    FileAppend(r.value, d, e);
    r := FileEntries(r.value, d);
    if r.Err? { return; }
    r := FileEntries(r.value, e);
  }

  // ----- What the item map is -----

  predicate DistinctNamed(ks: seq<Keyed>) {
    && (forall i | 0 <= i < |ks| :: ks[i].named)
    && (forall i, j | 0 <= i < j < |ks| :: ks[i].key != ks[j].key)
  }

  predicate Fresh(items: Items, ks: seq<Keyed>) {
    forall i | 0 <= i < |ks| :: ks[i].key !in items
  }

  ghost function KeysOf(ks: seq<Keyed>): set<string> { set k | k in ks :: k.key }

  lemma KeysOfCons(ks: seq<Keyed>)
    requires ks != []
    ensures KeysOf(ks) == {ks[0].key} + KeysOf(ks[1..])
  {
    assert forall k :: k in ks <==> k == ks[0] || k in ks[1..];
  }

  lemma DistinctCons(ks: seq<Keyed>)
    requires ks != []
    ensures DistinctNamed(ks) <==>
      ks[0].named && DistinctNamed(ks[1..]) && forall i :: 0 < i < |ks| ==> ks[i].key != ks[0].key
  {
    var t := ks[1..];
    assert forall i :: 0 <= i < |t| ==> t[i] == ks[i + 1];
    if ks[0].named && DistinctNamed(t) && forall i :: 0 < i < |ks| ==> ks[i].key != ks[0].key {
      forall i | 0 <= i < |ks| ensures ks[i].named { if i > 0 { assert ks[i] == t[i - 1]; } }
      forall i, j | 0 <= i < j < |ks| ensures ks[i].key != ks[j].key {
        assert ks[j] == t[j - 1];
        if i > 0 { assert ks[i] == t[i - 1]; }
      }
    }
  }

  /** Filing succeeds exactly when every entry has an identity of its own, and then the map holds the entries'
      items beside the old ones. */
  lemma {:induction false} FileMeaning(items: Items, ks: seq<Keyed>)
    ensures File(items, ks).Ok? <==> DistinctNamed(ks) && Fresh(items, ks)
    ensures File(items, ks).Ok? ==>
      var m := File(items, ks).value;
      && m.Keys == items.Keys + KeysOf(ks)
      && (forall k :: k in items ==> m[k] == items[k])
      && (forall i :: 0 <= i < |ks| ==> ks[i].key in m && m[ks[i].key] == ks[i].item)
    decreases |ks|
  {
    if ks != [] {
      var more := items[ks[0].key := ks[0].item];
      var t := ks[1..];
      FileMeaning(more, t);
      KeysOfCons(ks);
      DistinctCons(ks);
      assert forall i :: 0 <= i < |t| ==> t[i] == ks[i + 1];
      if Fresh(more, t) && ks[0].key !in items {
        forall i | 0 <= i < |ks| ensures ks[i].key !in items { if i > 0 { assert ks[i] == t[i - 1]; } }
      }
      if File(items, ks).Ok? {
        var m := File(items, ks).value;
        assert ks[0].key in more;
        forall i | 0 <= i < |ks| ensures ks[i].key in m && m[ks[i].key] == ks[i].item {
          if i > 0 { assert ks[i] == t[i - 1]; }
        }
      }
    }
  }
}
