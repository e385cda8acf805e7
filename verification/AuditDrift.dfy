/** What the item map says about the two paragraph maps it was made from, and how item maps follow each other. */
module AuditDrift {
  import opened Strings
  import opened Json
  import opened AuditState
  import opened AuditItems

  // ----- Applying an item map to the locked paragraphs -----

  datatype Side = Side(checksum: string, section: string)

  /** What the audit compares of a paragraph. */
  function SideOf(p: Paragraph): Side { Side(p.checksum, p.section) }

  function View(ps: Paragraphs): map<string, Side> { map id | id in ps :: SideOf(ps[id]) }

  function TextOf(d: map<string, Json>, key: string): string {
    if key in d && d[key].Str? then d[key].text else ""
  }

  function FieldsOf(j: Json): map<string, Json> { if j.Obj? then Dict(j.fields) else map[] }

  /** The kind of an item, read back from the item map. */
  function ItemKind(item: Json): string { TextOf(FieldsOf(item), "kind") }

  /** The live or locked side of an item, read back from the item map. */
  function ItemSide(item: Json, name: string): Side {
    var d := FieldsOf(item);
    var side := if name in d then FieldsOf(d[name]) else map[];
    Side(TextOf(side, "checksum"), TextOf(side, "section"))
  }

  /** From the locked paragraphs to the live ones, or back. */
  datatype Direction = Forward | Backward

  function SideName(way: Direction): string { if way.Forward? then "live" else "locked" }

  /** The kind of the paragraphs that are not there any more. */
  function Gone(way: Direction): string { if way.Forward? then "removed" else "added" }

  function From(live: Paragraphs, locked: Paragraphs, way: Direction): Paragraphs {
    if way.Forward? then locked else live
  }

  function To(live: Paragraphs, locked: Paragraphs, way: Direction): Paragraphs {
    if way.Forward? then live else locked
  }

  function ParagraphIds(keys: set<string>): set<string> {
    set k | k in keys && StartsWith(k, PARAGRAPH) :: k[|PARAGRAPH|..]
  }

  /** Bringing a view to the other side: the paragraphs that are gone there go, the other items set their side. */
  function Patched(view: map<string, Side>, items: Items, way: Direction): map<string, Side> {
    map id | id in view.Keys + ParagraphIds(items.Keys) &&
             (ParagraphKey(id) in items ==> ItemKind(items[ParagraphKey(id)]) != Gone(way)) &&
             (ParagraphKey(id) in items || id in view)
      :: if ParagraphKey(id) in items then ItemSide(items[ParagraphKey(id)], SideName(way)) else view[id]
  }

  // ----- The entries of a diff, by id -----

  predicate Drifted(live: Paragraphs, locked: Paragraphs, id: string) {
    if id in live then id !in locked || Differs(live[id], locked[id]) else id in locked
  }

  function DriftedIds(live: Paragraphs, locked: Paragraphs): set<string> {
    set id | id in live.Keys + locked.Keys && Drifted(live, locked, id)
  }

  function KindOf(live: Paragraphs, locked: Paragraphs, id: string): Kind {
    if id !in locked then Added else if id !in live then Removed else Changed
  }

  function EntryOf(live: Paragraphs, locked: Paragraphs, id: string): Entry
    requires id in live || id in locked
  {
    if id !in locked then Entry(id, None, Some(live[id]), false, false)
    else if id !in live then Entry(id, Some(locked[id]), None, false, false)
    else ChangedEntry(id, live[id], locked[id])
  }

  function KeyedId(live: Paragraphs, locked: Paragraphs, id: string): Keyed
    requires id in live || id in locked
  {
    KeyedEntry(KindOf(live, locked, id), EntryOf(live, locked, id))
  }

  function ChangedIds(ids: seq<string>, live: Paragraphs, locked: Paragraphs): seq<string>
    requires forall id :: id in ids ==> id in live && id in locked
  {
    if ids == [] then []
    else
      var id := ids[|ids| - 1];
      ChangedIds(ids[..|ids| - 1], live, locked) + (if Differs(live[id], locked[id]) then [id] else [])
  }

  /** The drifted ids in the order of their entries. */
  function DriftOrder(live: Paragraphs, locked: Paragraphs): seq<string> {
    Sorted(live.Keys - locked.Keys) + (Sorted(locked.Keys - live.Keys) +
    ChangedIds(Sorted(live.Keys * locked.Keys), live, locked))
  }

  predicate NoRepeats(ids: seq<string>) { forall i, j | 0 <= i < j < |ids| :: ids[i] != ids[j] }

  lemma {:induction false} ChangedIdsMeaning(ids: seq<string>, live: Paragraphs, locked: Paragraphs)
    requires forall id :: id in ids ==> id in live && id in locked
    requires NoRepeats(ids)
    ensures var c := ChangedIds(ids, live, locked);
            && NoRepeats(c)
            && (forall id :: id in c <==> id in ids && Differs(live[id], locked[id]))
            && |ChangedEntries(ids, live, locked)| == |c|
            && forall i :: 0 <= i < |c| ==>
               c[i] in ids && ChangedEntries(ids, live, locked)[i] == ChangedEntry(c[i], live[c[i]], locked[c[i]])
  {
    if ids != [] {
      var front := ids[..|ids| - 1];
      ChangedIdsMeaning(front, live, locked);
      var c := ChangedIds(ids, live, locked);
      var last := ids[|ids| - 1];
      assert forall id :: id in ids <==> id in front || id == last;
      assert last !in front;
    }
  }

  lemma AscendingNoRepeats(ids: seq<string>)
    requires Ascending(ids)
    ensures NoRepeats(ids)
  {
  }

  lemma DriftOrderMeaning(live: Paragraphs, locked: Paragraphs)
    ensures var ids := DriftOrder(live, locked);
            && NoRepeats(ids) && (forall id :: id in ids <==> id in DriftedIds(live, locked))
  {
    var a, r := Sorted(live.Keys - locked.Keys), Sorted(locked.Keys - live.Keys);
    var common := Sorted(live.Keys * locked.Keys);
    AscendingNoRepeats(a);
    AscendingNoRepeats(r);
    AscendingNoRepeats(common);
    ChangedIdsMeaning(common, live, locked);
    var c := ChangedIds(common, live, locked);
    ConcatNoRepeats(r, c);
    ConcatNoRepeats(a, r + c);
    forall id ensures id in a + (r + c) <==> id in DriftedIds(live, locked) {
      assert id in a + (r + c) <==> id in a || id in r || id in c;
    }
  }

  lemma ConcatNoRepeats(a: seq<string>, b: seq<string>)
    requires NoRepeats(a) && NoRepeats(b) && forall x :: x in a ==> x !in b
    ensures NoRepeats(a + b)
  {
    var t := a + b;
    forall i, j | 0 <= i < j < |t| ensures t[i] != t[j] {
      if i < |a| <= j { assert t[i] in a && t[j] in b; }
    }
  }

  /** The keyed entries are those of the given ids, in order. */
  ghost predicate KeyedFor(ks: seq<Keyed>, ids: seq<string>, live: Paragraphs, locked: Paragraphs) {
    |ks| == |ids| &&
    forall i :: 0 <= i < |ids| ==> (ids[i] in live || ids[i] in locked) && ks[i] == KeyedId(live, locked, ids[i])
  }

  lemma KeyedForAdded(ids: seq<string>, live: Paragraphs, locked: Paragraphs)
    requires forall id :: id in ids ==> id in live && id !in locked
    ensures KeyedFor(KeyedEntries(Added, AddedEntries(ids, live)), ids, live, locked)
  {
  }

  lemma KeyedForRemoved(ids: seq<string>, live: Paragraphs, locked: Paragraphs)
    requires forall id :: id in ids ==> id in locked && id !in live
    ensures KeyedFor(KeyedEntries(Removed, RemovedEntries(ids, locked)), ids, live, locked)
  {
  }

  lemma KeyedForChanged(ids: seq<string>, live: Paragraphs, locked: Paragraphs)
    requires NoRepeats(ids) && forall id :: id in ids ==> id in live && id in locked
    ensures KeyedFor(KeyedEntries(Changed, ChangedEntries(ids, live, locked)), ChangedIds(ids, live, locked), live,
                     locked)
  {
    ChangedIdsMeaning(ids, live, locked);
  }

  lemma KeyedForConcat(ka: seq<Keyed>, a: seq<string>, kb: seq<Keyed>, b: seq<string>, live: Paragraphs,
                       locked: Paragraphs)
    requires KeyedFor(ka, a, live, locked) && KeyedFor(kb, b, live, locked)
    ensures KeyedFor(ka + kb, a + b, live, locked)
  {
  }

  /** The entries that `canonical_items` visits are those of the drifted ids, in order. */
  lemma KeyedOfDiff(live: Paragraphs, locked: Paragraphs)
    ensures KeyedFor(AllKeyed(Diff(live, locked)), DriftOrder(live, locked), live, locked)
  {
    hide Sorted;
    hide ChangedIds;
    hide ChangedEntries;
    var a, r := Sorted(live.Keys - locked.Keys), Sorted(locked.Keys - live.Keys);
    var common := Sorted(live.Keys * locked.Keys);
    AscendingNoRepeats(common);
    KeyedForAdded(a, live, locked);
    KeyedForRemoved(r, live, locked);
    KeyedForChanged(common, live, locked);
    var ka, kr := KeyedEntries(Added, AddedEntries(a, live)), KeyedEntries(Removed, RemovedEntries(r, locked));
    var kc := KeyedEntries(Changed, ChangedEntries(common, live, locked));
    KeyedForConcat(kr, r, kc, ChangedIds(common, live, locked), live, locked);
    KeyedForConcat(ka, a, kr + kc, r + ChangedIds(common, live, locked), live, locked);
    var rest: seq<Keyed> := KeyedStructurals(HEADER, "header", []) + KeyedStructurals(REORDER, "reorder", []);
    assert rest == [] && kc + rest == kc;
  }

  lemma KeyInjective(a: string, b: string)
    requires ParagraphKey(a) == ParagraphKey(b)
    ensures a == b
  {
    assert ParagraphKey(a)[|PARAGRAPH|..] == a && ParagraphKey(b)[|PARAGRAPH|..] == b;
  }

  lemma KeyedDistinct(ks: seq<Keyed>, ids: seq<string>, live: Paragraphs, locked: Paragraphs)
    requires KeyedFor(ks, ids, live, locked) && NoRepeats(ids)
    ensures DistinctNamed(ks) <==> "" !in ids
  {
    forall i, j | 0 <= i < j < |ks| ensures ks[i].key != ks[j].key {
      if ks[i].key == ks[j].key { KeyInjective(ids[i], ids[j]); }
    }
    if "" in ids {
      var i :| 0 <= i < |ids| && ids[i] == "";
      assert !ks[i].named;
    } else {
      forall i | 0 <= i < |ks| ensures ks[i].named { assert ids[i] in ids; }
    }
  }

  /** The item that each drifted paragraph should have. */
  function Wanted(live: Paragraphs, locked: Paragraphs): map<string, Json> {
    map id | id in DriftedIds(live, locked) :: KeyedId(live, locked, id).item
  }

  /** One item per id, filed under the id's key. */
  ghost predicate FiledUnderKeys(m: Items, want: map<string, Json>) {
    && (forall id :: id in want ==> ParagraphKey(id) in m && m[ParagraphKey(id)] == want[id])
    && (forall k :: k in m ==> exists id :: id in want && k == ParagraphKey(id))
  }

  /** The keyed entries carry the wanted items of the given ids. */
  ghost predicate KeyedWanted(ks: seq<Keyed>, ids: seq<string>, want: map<string, Json>) {
    && |ks| == |ids| && (forall id :: id in ids <==> id in want)
    && forall i :: 0 <= i < |ids| ==> ids[i] in want && ks[i].key == ParagraphKey(ids[i]) && ks[i].item == want[ids[i]]
  }

  lemma FiledAll(ks: seq<Keyed>, ids: seq<string>, want: map<string, Json>, m: Items)
    requires KeyedWanted(ks, ids, want)
    requires forall i :: 0 <= i < |ks| ==> ks[i].key in m && m[ks[i].key] == ks[i].item
    ensures forall id :: id in want ==> ParagraphKey(id) in m && m[ParagraphKey(id)] == want[id]
  {
    forall id | id in want ensures ParagraphKey(id) in m && m[ParagraphKey(id)] == want[id] {
      assert id in ids;
      var i :| 0 <= i < |ids| && ids[i] == id;
      assert ks[i].key == ParagraphKey(id);
    }
  }

  lemma FiledOnly(ks: seq<Keyed>, ids: seq<string>, want: map<string, Json>, k: string)
    requires KeyedWanted(ks, ids, want) && k in KeysOf(ks)
    ensures exists id :: id in want && k == ParagraphKey(id)
  {
    var x :| x in ks && x.key == k;
    var i :| 0 <= i < |ks| && ks[i] == x;
    assert ids[i] in want && k == ParagraphKey(ids[i]);
  }

  lemma FiledItems(ks: seq<Keyed>, ids: seq<string>, want: map<string, Json>)
    requires KeyedWanted(ks, ids, want) && File(map[], ks).Ok?
    ensures FiledUnderKeys(File(map[], ks).value, want)
  {
    FileMeaning(map[], ks);
    var m := File(map[], ks).value;
    FiledAll(ks, ids, want, m);
    forall k | k in m ensures exists id :: id in want && k == ParagraphKey(id) {
      assert k in m.Keys;
      FiledOnly(ks, ids, want, k);
    }
  }

  /** The report of a diff is never rejected as a duplicate: it is rejected exactly when a drifted paragraph has an
      empty id, which `extract_paragraphs` never yields. */
  lemma CanonicalAccepts(live: Paragraphs, locked: Paragraphs)
    ensures Canonical(Diff(live, locked)).Ok? <==> "" !in DriftedIds(live, locked)
  {
    var ks, ids := AllKeyed(Diff(live, locked)), DriftOrder(live, locked);
    KeyedOfDiff(live, locked);
    DriftOrderMeaning(live, locked);
    KeyedDistinct(ks, ids, live, locked);
    FileMeaning(map[], ks);
    assert Fresh(map[], ks);
  }

  lemma KeyedForItems(ks: seq<Keyed>, ids: seq<string>, live: Paragraphs, locked: Paragraphs)
    requires KeyedFor(ks, ids, live, locked) && forall id :: id in ids <==> id in DriftedIds(live, locked)
    ensures KeyedWanted(ks, ids, Wanted(live, locked))
  {
    forall i | 0 <= i < |ids| ensures ks[i].key == ParagraphKey(ids[i]) && ks[i].item == Wanted(live, locked)[ids[i]] {
      assert ids[i] in ids;
    }
  }

  /** An accepted report of a diff has exactly one item per drifted paragraph. */
  lemma CanonicalOfDiff(live: Paragraphs, locked: Paragraphs)
    requires Canonical(Diff(live, locked)).Ok?
    ensures FiledUnderKeys(Canonical(Diff(live, locked)).value, Wanted(live, locked))
  {
    var ks, ids := AllKeyed(Diff(live, locked)), DriftOrder(live, locked);
    KeyedOfDiff(live, locked);
    DriftOrderMeaning(live, locked);
    KeyedForItems(ks, ids, live, locked);
    FiledItems(ks, ids, Wanted(live, locked));
  }

  // ----- Reading items back -----

  lemma SideReads(p: Option<Paragraph>)
    ensures var d := FieldsOf(SideJson(p));
            Side(TextOf(d, "checksum"), TextOf(d, "section")) == (if p.Some? then SideOf(p.value) else Side("", ""))
  {
    var fs := SideJson(p).fields;
    var a, b := "checksum", "section";
    assert a[0] != b[0];
    assert fs[1..] == [fs[1]] && fs[1..][1..] == [];
    assert Dict(fs[1..]) == map[fs[1].key := fs[1].value];
    assert Dict(fs) == map[a := fs[0].value] + map[b := fs[1].value];
  }

  function SideOfEntry(p: Option<Paragraph>): Side { if p.Some? then SideOf(p.value) else Side("", "") }

  /** An item says its kind and both sides; a changed one also what changed, and no item says more. */
  lemma ItemReads(kind: Kind, e: Entry)
    ensures var item := ItemJson(kind, e);
            && ItemKind(item) == KindName(kind)
            && ItemSide(item, "live") == SideOfEntry(e.live) && ItemSide(item, "locked") == SideOfEntry(e.locked)
    ensures var d := FieldsOf(ItemJson(kind, e));
            if kind == Changed then
              && d.Keys == {"content_changed", "kind", "live", "locked", "section_changed"}
              && d["content_changed"] == Bool(e.contentChanged) && d["section_changed"] == Bool(e.sectionChanged)
            else d.Keys == {"kind", "live", "locked"}
  {
    SideReads(e.live);
    SideReads(e.locked);
    var c, k, v, o, s := "content_changed", "kind", "live", "locked", "section_changed";
    assert c[0] == 'c' && k[0] == 'k' && v[0] == 'l' && o[0] == 'l' && s[0] == 's' && |v| != |o|;
    if kind == Changed {
      DictOfFive(Field(c, Bool(e.contentChanged)), Field(k, Str(KindName(kind))), Field(v, SideJson(e.live)),
                 Field(o, SideJson(e.locked)), Field(s, Bool(e.sectionChanged)));
    } else {
      DictOfThree(Field(k, Str(KindName(kind))), Field(v, SideJson(e.live)), Field(o, SideJson(e.locked)));
    }
  }

  lemma KindNames()
    ensures KindName(Added) == "added" && KindName(Removed) == "removed" && KindName(Changed) == "changed"
    ensures "added" != "removed" && "changed" != "removed" && "changed" != "added"
  {
    assert |"added"| == 5 && "changed"[0] == 'c' && "removed"[0] == 'r';
  }

  /** Diff and patch are inverse: applying the item map of a diff to the locked view gives the live view, and undoing it
      on the live view gives the locked one. */
  lemma PatchUndoesDiff(live: Paragraphs, locked: Paragraphs)
    requires Canonical(Diff(live, locked)).Ok?
    ensures Patched(View(locked), Canonical(Diff(live, locked)).value, Forward) == View(live)
    ensures Patched(View(live), Canonical(Diff(live, locked)).value, Backward) == View(locked)
  {
    hide Diff;
    hide Canonical;
    CanonicalOfDiff(live, locked);
    PatchAll(live, locked, Canonical(Diff(live, locked)).value, Forward);
    PatchAll(live, locked, Canonical(Diff(live, locked)).value, Backward);
  }

  /** The item of a paragraph on both sides says what of it changed. */
  lemma ChangedItemSays(live: Paragraphs, locked: Paragraphs, id: string)
    requires Canonical(Diff(live, locked)).Ok? && id in live && id in locked && Differs(live[id], locked[id])
    ensures var items := Canonical(Diff(live, locked)).value;
            && ParagraphKey(id) in items
            && var d := FieldsOf(items[ParagraphKey(id)]);
               && "content_changed" in d && "section_changed" in d
               && d["content_changed"] == Bool(live[id].checksum != locked[id].checksum)
               && d["section_changed"] == Bool(live[id].section != locked[id].section)
  {
    hide Diff;
    hide Canonical;
    CanonicalOfDiff(live, locked);
    assert id in DriftedIds(live, locked);
    assert Wanted(live, locked)[id] == ItemJson(Changed, ChangedEntry(id, live[id], locked[id]));
    ItemReads(Changed, ChangedEntry(id, live[id], locked[id]));
    hide ItemJson;
    hide Wanted;
  }

  lemma FiledThere(ks: seq<Keyed>, x: Keyed)
    requires File(map[], ks).Ok? && x in ks
    ensures x.key in File(map[], ks).value && File(map[], ks).value[x.key] == x.item
  {
    FileMeaning(map[], ks);
    var i :| 0 <= i < |ks| && ks[i] == x;
  }

  lemma StructuralListed(c: Changes, s: Structural)
    ensures s in c.headers ==> KeyedStructural(HEADER, "header", s) in AllKeyed(c)
    ensures s in c.reorders ==> KeyedStructural(REORDER, "reorder", s) in AllKeyed(c)
  {
    hide KeyedStructural;
    var h, r := KeyedStructurals(HEADER, "header", c.headers), KeyedStructurals(REORDER, "reorder", c.reorders);
    if i :| 0 <= i < |c.headers| && c.headers[i] == s { assert h[i] in h + r; }
    if i :| 0 <= i < |c.reorders| && c.reorders[i] == s { assert r[i] in h + r; }
    hide KeyedEntries;
    hide KeyedStructurals;
  }

  /** Header changes and section reorders are filed under their section, whole. */
  lemma StructuralsAreFiled(c: Changes, s: Structural)
    requires Canonical(c).Ok?
    ensures s in c.headers ==>
      && "header:" + s.sectionId in Canonical(c).value
      && Canonical(c).value["header:" + s.sectionId] == Obj([Field("kind", Str("header")), Field("value", s.value)])
    ensures s in c.reorders ==>
      && "reorder:" + s.sectionId in Canonical(c).value
      && Canonical(c).value["reorder:" + s.sectionId] == Obj([Field("kind", Str("reorder")), Field("value", s.value)])
  {
    hide AllKeyed;
    hide File;
    StructuralListed(c, s);
    if s in c.headers { FiledThere(AllKeyed(c), KeyedStructural(HEADER, "header", s)); }
    if s in c.reorders { FiledThere(AllKeyed(c), KeyedStructural(REORDER, "reorder", s)); }
  }

  /** `has_differences`: a diff has some exactly when it leads to items. */
  lemma HasItemsExactly(live: Paragraphs, locked: Paragraphs)
    requires Canonical(Diff(live, locked)).Ok?
    ensures HasDifferences(Diff(live, locked)) <==> Canonical(Diff(live, locked)).value != map[]
  {
    var d := Diff(live, locked);
    var ks := AllKeyed(d);
    FileMeaning(map[], ks);
    if HasDifferences(d) {
      assert ks[0] in ks;
    } else {
      assert ks == [];
    }
  }

  lemma PatchAll(live: Paragraphs, locked: Paragraphs, m: Items, way: Direction)
    requires FiledUnderKeys(m, Wanted(live, locked))
    ensures Patched(View(From(live, locked, way)), m, way) == View(To(live, locked, way))
  {
    var p, v := Patched(View(From(live, locked, way)), m, way), View(To(live, locked, way));
    forall id ensures SameAt(p, v, id) { PatchOne(live, locked, m, way, id); }
    SameMap(p, v);
  }

  ghost predicate SameAt(a: map<string, Side>, b: map<string, Side>, id: string) {
    (id in a <==> id in b) && (id in a && id in b ==> a[id] == b[id])
  }

  lemma SameMap(a: map<string, Side>, b: map<string, Side>)
    requires forall id :: SameAt(a, b, id)
    ensures a == b
  {
    forall id ensures (id in a <==> id in b) && (id in a && id in b ==> a[id] == b[id]) { assert SameAt(a, b, id); }
  }

  lemma FiledEmpty(m: Items, want: map<string, Json>)
    requires FiledUnderKeys(m, want)
    ensures m == map[] <==> want == map[]
  {
    if m == map[] {
      forall id ensures id !in want { assert ParagraphKey(id) !in m; }
    } else {
      var k :| k in m.Keys;
    }
  }

  /** The item map of a diff is empty exactly when ids, checksums and sections agree. */
  lemma NoItemsWhenEqual(live: Paragraphs, locked: Paragraphs)
    requires Canonical(Diff(live, locked)).Ok?
    ensures Canonical(Diff(live, locked)).value == map[] <==> View(live) == View(locked)
  {
    hide Diff;
    hide Canonical;
    CanonicalOfDiff(live, locked);
    FiledEmpty(Canonical(Diff(live, locked)).value, Wanted(live, locked));
    assert Wanted(live, locked).Keys == DriftedIds(live, locked);
    if DriftedIds(live, locked) == {} {
      forall id ensures !Drifted(live, locked, id) { assert id !in DriftedIds(live, locked); }
      ViewsAgree(live, locked);
    } else {
      var id :| id in DriftedIds(live, locked);
      ViewsDisagree(live, locked, id);
    }
  }

  lemma ViewsAgree(live: Paragraphs, locked: Paragraphs)
    requires forall id :: !Drifted(live, locked, id)
    ensures View(live) == View(locked)
  {
    forall id ensures id in live <==> id in locked
              ensures id in live && id in locked ==> View(live)[id] == View(locked)[id]
    {
      assert !Drifted(live, locked, id);
    }
  }

  lemma ViewsDisagree(live: Paragraphs, locked: Paragraphs, id: string)
    requires Drifted(live, locked, id)
    ensures View(live) != View(locked)
  {
    if id in live && id in locked {
      assert View(live)[id] != View(locked)[id];
    } else {
      assert id in View(live) <==> id in live;
      assert id in View(locked) <==> id in locked;
    }
  }

  lemma PatchedAt(view: map<string, Side>, m: Items, way: Direction, id: string)
    ensures var key, p := ParagraphKey(id), Patched(view, m, way);
            if key in m then
              (id in p <==> ItemKind(m[key]) != Gone(way)) && (id in p ==> p[id] == ItemSide(m[key], SideName(way)))
            else
              (id in p <==> id in view) && (id in p ==> p[id] == view[id])
  {
    var key := ParagraphKey(id);
    assert key[|PARAGRAPH|..] == id && StartsWith(key, PARAGRAPH);
    if key in m { assert id in ParagraphIds(m.Keys); }
  }

  lemma WantedReads(live: Paragraphs, locked: Paragraphs, way: Direction, id: string)
    requires id in Wanted(live, locked)
    ensures ItemKind(Wanted(live, locked)[id]) != Gone(way) <==> id in To(live, locked, way)
    ensures id in To(live, locked, way) ==>
      ItemSide(Wanted(live, locked)[id], SideName(way)) == SideOf(To(live, locked, way)[id])
  {
    ItemReads(KindOf(live, locked, id), EntryOf(live, locked, id));
    KindNames();
    hide ItemJson;
    hide KindName;
    hide ItemSide;
    hide ItemKind;
  }

  lemma UndriftedAgrees(live: Paragraphs, locked: Paragraphs, id: string)
    requires id !in Wanted(live, locked)
    ensures SameAt(View(locked), View(live), id) && SameAt(View(live), View(locked), id)
  {
    assert id !in DriftedIds(live, locked);
  }

  /** The patch, one paragraph at a time. */
  lemma PatchOne(live: Paragraphs, locked: Paragraphs, m: Items, way: Direction, id: string)
    requires FiledUnderKeys(m, Wanted(live, locked))
    ensures SameAt(Patched(View(From(live, locked, way)), m, way), View(To(live, locked, way)), id)
  {
    PatchedAt(View(From(live, locked, way)), m, way, id);
    if ParagraphKey(id) in m {
      var x :| x in Wanted(live, locked) && ParagraphKey(id) == ParagraphKey(x);
      KeyInjective(id, x);
      WantedReads(live, locked, way, id);
    } else {
      UndriftedAgrees(live, locked, id);
    }
  }

  // ----- diff_items -----

  function Selected(keys: seq<string>, from: Items, to: Items): seq<string>
    requires forall k :: k in keys ==> k in from && k in to
  {
    if keys == [] then []
    else (if from[keys[0]] != to[keys[0]] then [keys[0]] else []) + Selected(keys[1..], from, to)
  }

  datatype ItemDiff = ItemDiff(added: seq<string>, updated: seq<string>, resolved: seq<string>)

  /** `diff_items`: what a transition comment reports as new, updated and resolved. */
  function DiffItems(previous: Items, current: Items): ItemDiff {
    ItemDiff(Sorted(current.Keys - previous.Keys),
             Selected(Sorted(current.Keys * previous.Keys), previous, current),
             Sorted(previous.Keys - current.Keys))
  }

  lemma {:induction false} SelectedMeaning(keys: seq<string>, from: Items, to: Items)
    requires forall k :: k in keys ==> k in from && k in to
    ensures forall k :: k in Selected(keys, from, to) <==> k in keys && from[k] != to[k]
  {
    if keys != [] {
      SelectedMeaning(keys[1..], from, to);
      assert forall k :: k in keys <==> k == keys[0] || k in keys[1..];
    }
  }

  /** Turning the previous map into the current one with what the report says. */
  function Replayed(previous: Items, d: ItemDiff, current: Items): Items
    requires forall k :: k in d.added || k in d.updated ==> k in current
  {
    map k | k in (previous.Keys - (set r | r in d.resolved)) + (set a | a in d.added)
      :: if k in d.added || k in d.updated then current[k] else if k in previous then previous[k] else Null
  }

  ghost predicate Reports(d: ItemDiff, previous: Items, current: Items) {
    && (forall k :: k in d.added <==> k in current && k !in previous)
    && (forall k :: k in d.updated <==> k in current && k in previous && current[k] != previous[k])
    && (forall k :: k in d.resolved <==> k in previous && k !in current)
  }

  lemma ReportsLists(added: seq<string>, common: seq<string>, resolved: seq<string>, previous: Items, current: Items)
    requires forall k :: k in added <==> k in current && k !in previous
    requires forall k :: k in common <==> k in current && k in previous
    requires forall k :: k in resolved <==> k in previous && k !in current
    ensures Reports(ItemDiff(added, Selected(common, previous, current), resolved), previous, current)
  {
    hide Selected;
    SelectedMeaning(common, previous, current);
  }

  lemma DiffItemsReports(previous: Items, current: Items)
    ensures Reports(DiffItems(previous, current), previous, current)
  {
    hide Sorted;
    hide Selected;
    hide Reports;
    hide Ascending;
    ReportsLists(Sorted(current.Keys - previous.Keys), Sorted(current.Keys * previous.Keys),
                 Sorted(previous.Keys - current.Keys), previous, current);
  }

  /** The three lists are disjoint and carry the previous map to the current one. */
  lemma ReportReplays(d: ItemDiff, previous: Items, current: Items)
    requires Reports(d, previous, current)
    ensures forall k :: k in d.added ==> k !in d.updated && k !in d.resolved
    ensures forall k :: k in d.updated ==> k !in d.resolved
    ensures Replayed(previous, d, current) == current
  {
    assert Replayed(previous, d, current).Keys == current.Keys;
  }

  /** The three lists are empty together exactly when nothing changed. */
  lemma ReportEmpty(d: ItemDiff, previous: Items, current: Items)
    requires Reports(d, previous, current)
    ensures d.added == [] && d.updated == [] && d.resolved == [] <==> previous == current
  {
    if d.added == [] && d.updated == [] && d.resolved == [] {
      assert forall k :: k !in d.added && k !in d.updated && k !in d.resolved;
      assert previous.Keys == current.Keys;
    }
    assert d.added != [] ==> d.added[0] in d.added;
    assert d.updated != [] ==> d.updated[0] in d.updated;
    assert d.resolved != [] ==> d.resolved[0] in d.resolved;
  }

  lemma SplitCount(a: set<string>, b: set<string>)
    ensures |a| == |b| + |a - b| - |b - a|
  {
    assert a == (a - b) + (a * b);
    assert b == (b - a) + (a * b);
  }

  /** The report accounts for the change in size. */
  lemma DiffItemsCount(previous: Items, current: Items)
    ensures var d := DiffItems(previous, current); |current| == |previous| + |d.added| - |d.resolved|
  {
    SplitCount(current.Keys, previous.Keys);
    assert |current.Keys| == |current| && |previous.Keys| == |previous|;
  }

  /** What `diff_items` reports at one transition. */
  lemma DiffItemsMeaning(previous: Items, current: Items)
    ensures var d := DiffItems(previous, current);
            && Reports(d, previous, current)
            && Replayed(previous, d, current) == current
            && (d.added == [] && d.updated == [] && d.resolved == [] <==> previous == current)
            && |current| == |previous| + |d.added| - |d.resolved|
  {
    var d := DiffItems(previous, current);
    DiffItemsReports(previous, current);
    ReportReplays(d, previous, current);
    ReportEmpty(d, previous, current);
    DiffItemsCount(previous, current);
  }

  /** New minus resolved, summed over the transitions of a chain of item maps. */
  function NetChange(chain: seq<Items>): int
    requires chain != []
  {
    if |chain| == 1 then 0
    else
      var d := DiffItems(chain[|chain| - 2], chain[|chain| - 1]);
      NetChange(chain[..|chain| - 1]) + |d.added| - |d.resolved|
  }

  /** Over a whole history the reported changes add up: the last map has the size of the first plus the net change. */
  lemma {:induction false} ReportsAddUp(chain: seq<Items>)
    requires chain != []
    ensures |chain[|chain| - 1]| == |chain[0]| + NetChange(chain)
  {
    if |chain| > 1 {
      ReportsAddUp(chain[..|chain| - 1]);
      DiffItemsCount(chain[|chain| - 2], chain[|chain| - 1]);
    }
  }
}
