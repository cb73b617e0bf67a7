/**
 * What `build_docx_bytes` writes into the document, as the ordered list of
 * builder calls it makes, and the Markdown lines of the live preview. Both
 * walk the catalog and share one selection rule per section.
 */
module Render {
  import opened Wrappers
  import opened Seqs
  import opened Text
  import opened Catalog
  import opened Config

  /** One call on the document builder. */
  datatype DocOp =
    | Heading(level: nat, text: string)  // add_heading(text, level)
    | Paragraph(text: string)            // add_paragraph(text); Paragraph("") is the blank separator
    | Bullet(text: string)               // a "List Bullet" paragraph holding one run of text

  const DOCUMENT_TITLE: string := "MEP SD Narrative"

  const BLANK: DocOp := Paragraph("")

  // ---------------------------------------------------------------------------
  // Header: title and metadata lines
  // ---------------------------------------------------------------------------

  /** A metadata key and the caption its document line starts with. */
  datatype MetaField = MetaField(key: string, caption: string)

  /** The metadata lines, in the fixed order the document prints them. */
  const META_FIELDS: seq<MetaField> := [
    MetaField("project_name", "Project: "),
    MetaField("project_location", "Location: "),
    MetaField("prepared_for", "Prepared For: "),
    MetaField("prepared_by", "Prepared By: "),
    MetaField("date", "Date: ")
  ]

  /** The document prints exactly the metadata keys `init_state` seeds, in the same order. */
  lemma MetaFieldsMatchSeed()
    ensures |META_FIELDS| == |META_KEYS|
    ensures forall i :: 0 <= i < |META_FIELDS| ==> META_FIELDS[i].key == META_KEYS[i]
    ensures (set f | f in META_FIELDS :: f.key) == InitialMeta().Keys
  {
  }

  /** `meta.get(key)` with a missing key read as the empty string (both are falsy). */
  function Get(meta: map<string, string>, key: string): string {
    if key in meta then meta[key] else ""
  }

  /** `if pm.get(key):` */
  function Filled(meta: map<string, string>): MetaField -> bool {
    (f: MetaField) => Get(meta, f.key) != ""
  }

  function MetaLine(meta: map<string, string>): MetaField -> DocOp {
    (f: MetaField) => Paragraph(f.caption + Get(meta, f.key))
  }

  function FilledFields(meta: map<string, string>): seq<MetaField> {
    Filter(META_FIELDS, Filled(meta))
  }

  function HeaderOps(meta: map<string, string>): seq<DocOp> {
    [Heading(1, DOCUMENT_TITLE)] + Map(FilledFields(meta), MetaLine(meta)) + [BLANK]
  }

  // ---------------------------------------------------------------------------
  // Per-section selection, shared by the document and the preview
  // ---------------------------------------------------------------------------

  /** `sections.get(key, {})` */
  function RecordOf(sections: map<string, SectionRecord>, key: string): SectionRecord {
    if key in sections then sections[key] else EmptyRecord
  }

  /** `(data.get("intro") or "").strip()` */
  function IntroText(rec: SectionRecord): string {
    Strip(rec.intro.GetOr(""))
  }

  /** `bool(bullets_state.get(key, False))`: a missing toggle counts as off. */
  predicate IsOn(toggles: map<string, bool>, key: string) {
    key in toggles && toggles[key]
  }

  function Toggled(toggles: map<string, bool>): BulletItem -> bool {
    (b: BulletItem) => IsOn(toggles, b.key)
  }

  function BulletText(b: BulletItem): string {
    b.text
  }

  function NonBlank(s: string): bool {
    s != ""
  }

  /** The texts of the catalog bullets whose toggle is on, in catalog order. */
  function CatalogTexts(bullets: seq<BulletItem>, toggles: map<string, bool>): seq<string> {
    Map(Filter(bullets, Toggled(toggles)), BulletText)
  }

  /** The custom bullets, each stripped, the blank ones dropped, in list order. */
  function CleanCustom(custom: seq<string>): seq<string> {
    Filter(Map(custom, Strip), NonBlank)
  }

  /** What one section shows: its intro ("" for none) and its two runs of bullets. */
  datatype SectionContent = SectionContent(intro: string, catalogBullets: seq<string>, customBullets: seq<string>)

  function Select(spec: SectionSpec, rec: SectionRecord): SectionContent {
    SectionContent(
      IntroText(rec),
      CatalogTexts(spec.bullets, rec.toggles.GetOr(map[])),
      CleanCustom(rec.customBullets.GetOr([])))
  }

  /**
   * The catalog bullets shown are exactly those whose toggle is stored as
   * true, in catalog order: the i-th text shown is the text of bullet
   * ix[i], the positions ix ascend, and a position is among them if and only
   * if its toggle is present and on.
   */
  lemma CatalogBulletSelection(bullets: seq<BulletItem>, toggles: map<string, bool>)
    ensures var texts, ix := CatalogTexts(bullets, toggles), KeptIndices(bullets, Toggled(toggles));
      && |texts| == |ix|
      && StrictlyIncreasing(ix)
      && (forall i :: 0 <= i < |ix| ==> ix[i] < |bullets| && texts[i] == bullets[ix[i]].text)
      && (forall j :: 0 <= j < |bullets| ==>
            (j in ix <==> bullets[j].key in toggles && toggles[bullets[j].key]))
  {
    FilterByIndices(bullets, Toggled(toggles));
    MapIndex(Filter(bullets, Toggled(toggles)), BulletText);
  }

  /**
   * The custom bullets shown are the stripped entries that are not blank, in
   * list order: the i-th one shown is entry ix[i] stripped, the positions ix
   * ascend, and a position is among them if and only if its entry holds a
   * non-whitespace character. Every bullet shown is non-empty and has no
   * surrounding whitespace.
   */
  lemma CustomBulletSelection(custom: seq<string>)
    ensures var shown, ix := CleanCustom(custom), KeptIndices(Map(custom, Strip), NonBlank);
      && |shown| == |ix|
      && StrictlyIncreasing(ix)
      && (forall i :: 0 <= i < |ix| ==> ix[i] < |custom| && shown[i] == Strip(custom[ix[i]]))
      && (forall j :: 0 <= j < |custom| ==> (j in ix <==> Strip(custom[j]) != ""))
      && (forall i :: 0 <= i < |shown| ==> shown[i] != "" && Strip(shown[i]) == shown[i])
  {
    var stripped := Map(custom, Strip);
    var shown, ix := Filter(stripped, NonBlank), KeptIndices(stripped, NonBlank);
    FilterByIndices(stripped, NonBlank);
    MapIndex(custom, Strip);
    forall i | 0 <= i < |ix|
      ensures ix[i] < |custom| && shown[i] == Strip(custom[ix[i]])
      ensures shown[i] != "" && Strip(shown[i]) == shown[i]
    {
      assert shown[i] == stripped[ix[i]];
      assert NonBlank(stripped[ix[i]]);
      StripIdempotent(custom[ix[i]]);
    }
  }

  /** One more catalog bullet looked at: the loop step of the document and the preview. */
  lemma CatalogTextsSnoc(bullets: seq<BulletItem>, b: BulletItem, toggles: map<string, bool>)
    ensures CatalogTexts(bullets + [b], toggles)
         == CatalogTexts(bullets, toggles) + (if IsOn(toggles, b.key) then [b.text] else [])
    ensures !IsOn(toggles, b.key) ==> CatalogTexts(bullets + [b], toggles) == CatalogTexts(bullets, toggles)
  {
    FilterSnoc(bullets, b, Toggled(toggles));
    if IsOn(toggles, b.key) {
      MapSnoc(Filter(bullets, Toggled(toggles)), b, BulletText);
    } else {
      assert CatalogTexts(bullets, toggles) + [] == CatalogTexts(bullets, toggles);
    }
  }

  /** One more custom bullet looked at: the loop step of the document and the preview. */
  lemma CleanCustomSnoc(custom: seq<string>, cb: string)
    ensures CleanCustom(custom + [cb]) == CleanCustom(custom) + (if Strip(cb) != "" then [Strip(cb)] else [])
    ensures Strip(cb) == "" ==> CleanCustom(custom + [cb]) == CleanCustom(custom)
  {
    MapSnoc(custom, cb, Strip);
    FilterSnoc(Map(custom, Strip), Strip(cb), NonBlank);
    assert CleanCustom(custom) + [] == CleanCustom(custom);
  }

  /** `data["bullets"].get(b.key, b.default_on)`: the value the section editor shows for a toggle. */
  function EditorToggle(toggles: map<string, bool>, b: BulletItem): bool {
    if b.key in toggles then toggles[b.key] else b.defaultOn
  }

  /**
   * The editor and the document agree on every stored toggle, but read a
   * missing one differently: the editor falls back to the bullet's default,
   * the document to off.
   */
  lemma ToggleDefaults(toggles: map<string, bool>, b: BulletItem)
    ensures b.key in toggles ==> (EditorToggle(toggles, b) <==> Toggled(toggles)(b))
    ensures b.key !in toggles ==> EditorToggle(toggles, b) == b.defaultOn && !Toggled(toggles)(b)
  {
  }

  // ---------------------------------------------------------------------------
  // The document script
  // ---------------------------------------------------------------------------

  function AsBullet(t: string): DocOp {
    Bullet(t)
  }

  function IntroOps(intro: string): seq<DocOp> {
    if intro != "" then [Paragraph(intro)] else []
  }

  /** One section: its heading, its intro if any, its bullets, and a blank paragraph. */
  function RenderSection(title: string, c: SectionContent): seq<DocOp> {
    [Heading(2, title)] + IntroOps(c.intro) + Map(c.catalogBullets, AsBullet)
      + Map(c.customBullets, AsBullet) + [BLANK]
  }

  function SectionOps(spec: SectionSpec, rec: SectionRecord): seq<DocOp> {
    RenderSection(spec.title, Select(spec, rec))
  }

  function BodyOps(cat: seq<SectionSpec>, sections: map<string, SectionRecord>): seq<DocOp> {
    if |cat| == 0 then []
    else
      var spec := cat[|cat| - 1];
      BodyOps(cat[..|cat| - 1], sections) + SectionOps(spec, RecordOf(sections, spec.key))
  }

  /** The builder calls of `build_docx_bytes`, in order. */
  function DocumentScript(cat: seq<SectionSpec>, meta: map<string, string>, sections: map<string, SectionRecord>): seq<DocOp> {
    HeaderOps(meta) + BodyOps(cat, sections)
  }

  /**
   * The header: the document opens with the level-1 title heading, then one
   * line per metadata field whose value is non-empty, in the fixed field
   * order, each line the field's caption followed by the value, then one
   * blank paragraph.
   */
  lemma DocumentHeader(cat: seq<SectionSpec>, meta: map<string, string>, sections: map<string, SectionRecord>)
    ensures var ops, fields, ix := DocumentScript(cat, meta, sections), FilledFields(meta), KeptIndices(META_FIELDS, Filled(meta));
      && |ops| >= |fields| + 2
      && ops[0] == Heading(1, DOCUMENT_TITLE)
      && (forall i :: 0 <= i < |fields| ==>
            fields[i].key in meta && ops[1 + i] == Paragraph(fields[i].caption + meta[fields[i].key]))
      && ops[|fields| + 1] == BLANK
      && |fields| == |ix| && StrictlyIncreasing(ix)
      && (forall i :: 0 <= i < |ix| ==> ix[i] < |META_FIELDS| && fields[i] == META_FIELDS[ix[i]])
      && (forall j :: 0 <= j < |META_FIELDS| ==>
            (j in ix <==> META_FIELDS[j].key in meta && meta[META_FIELDS[j].key] != ""))
  {
    FilterByIndices(META_FIELDS, Filled(meta));
    HeaderContents(meta);
    var header := HeaderOps(meta);
    var ops := DocumentScript(cat, meta, sections);
    assert forall p :: 0 <= p < |header| ==> ops[p] == header[p];
  }

  /** The header alone: title, one paragraph per filled field in field order, blank paragraph. */
  lemma HeaderContents(meta: map<string, string>)
    ensures var header, fields := HeaderOps(meta), FilledFields(meta);
      && |header| == |fields| + 2
      && header[0] == Heading(1, DOCUMENT_TITLE)
      && (forall i :: 0 <= i < |fields| ==>
            fields[i].key in meta && header[1 + i] == Paragraph(fields[i].caption + meta[fields[i].key]))
      && header[|fields| + 1] == BLANK
  {
    var fields := FilledFields(meta);
    var lines := Map(fields, MetaLine(meta));
    var header := HeaderOps(meta);
    MapIndex(fields, MetaLine(meta));
    forall i | 0 <= i < |fields|
      ensures fields[i].key in meta && header[1 + i] == Paragraph(fields[i].caption + meta[fields[i].key])
    {
      FilterMembership(META_FIELDS, Filled(meta), fields[i]);
      assert header[1 + i] == lines[i];
    }
  }

  /** With the seeded, all-empty metadata the header is the title and the blank paragraph only. */
  lemma InitialHeader()
    ensures HeaderOps(InitialMeta()) == [Heading(1, DOCUMENT_TITLE), BLANK]
  {
    FilterNone(META_FIELDS, Filled(InitialMeta()));
  }

  predicate IsSectionHeading(op: DocOp) {
    op.Heading? && op.level == 2
  }

  /** The texts of the level-2 headings, in order. */
  function SectionTitles(ops: seq<DocOp>): seq<string> {
    if |ops| == 0 then []
    else SectionTitles(ops[..|ops| - 1]) + (if IsSectionHeading(ops[|ops| - 1]) then [ops[|ops| - 1].text] else [])
  }

  lemma {:induction false} SectionTitlesAppend(a: seq<DocOp>, b: seq<DocOp>)
    ensures SectionTitles(a + b) == SectionTitles(a) + SectionTitles(b)
  {
    if |b| > 0 {
      var init := b[..|b| - 1];
      SectionTitlesAppend(a, init);
      assert (a + b)[..|a + b| - 1] == a + init;
    } else {
      assert a + b == a;
    }
  }

  predicate NoHeading(ops: seq<DocOp>) {
    forall p :: 0 <= p < |ops| ==> !ops[p].Heading?
  }

  lemma NoHeadingAppend(a: seq<DocOp>, b: seq<DocOp>)
    requires NoHeading(a) && NoHeading(b)
    ensures NoHeading(a + b)
  {
    forall p | 0 <= p < |a + b| ensures !(a + b)[p].Heading? {
      if p >= |a| { assert (a + b)[p] == b[p - |a|]; }
    }
  }

  lemma {:induction false} NoHeadingNoTitles(ops: seq<DocOp>)
    requires NoHeading(ops)
    ensures SectionTitles(ops) == []
  {
    if |ops| > 0 {
      NoHeadingNoTitles(ops[..|ops| - 1]);
    }
  }

  /** A section's ops start with its level-2 heading, end with a blank paragraph, and hold no other heading. */
  lemma RenderSectionShape(title: string, c: SectionContent)
    ensures var ops := RenderSection(title, c);
      && ops[0] == Heading(2, title)
      && ops[|ops| - 1] == BLANK
      && NoHeading(ops[1..])
      && SectionTitles(ops) == [title]
  {
    var intro, catalog, custom := IntroOps(c.intro), Map(c.catalogBullets, AsBullet), Map(c.customBullets, AsBullet);
    var rest := intro + catalog + custom + [BLANK];
    var head := [Heading(2, title)];
    assert RenderSection(title, c) == head + rest;
    MapIndex(c.catalogBullets, AsBullet);
    MapIndex(c.customBullets, AsBullet);
    assert NoHeading(intro) && NoHeading(catalog) && NoHeading(custom) && NoHeading([BLANK]);
    NoHeadingAppend(intro, catalog);
    NoHeadingAppend(intro + catalog, custom);
    NoHeadingAppend(intro + catalog + custom, [BLANK]);
    NoHeadingNoTitles(rest);
    SectionTitlesAppend(head, rest);
    assert SectionTitles(head) == [title] by {
      assert head[..0] == [];
    }
  }

  function TitleOf(spec: SectionSpec): string {
    spec.title
  }

  /** The body holds exactly one level-2 heading per catalog section, in catalog order. */
  lemma {:induction false} BodyTitles(cat: seq<SectionSpec>, sections: map<string, SectionRecord>)
    ensures SectionTitles(BodyOps(cat, sections)) == Map(cat, TitleOf)
  {
    if |cat| > 0 {
      var init, spec := cat[..|cat| - 1], cat[|cat| - 1];
      BodyTitles(init, sections);
      SectionTitlesAppend(BodyOps(init, sections), SectionOps(spec, RecordOf(sections, spec.key)));
      RenderSectionShape(spec.title, Select(spec, RecordOf(sections, spec.key)));
    }
  }

  /** Every heading after the first position is a section heading directly after a blank paragraph. */
  predicate SectionsSeparated(ops: seq<DocOp>) {
    forall p :: 0 < p < |ops| && ops[p].Heading? ==> ops[p].level == 2 && ops[p - 1] == BLANK
  }

  /** Appending a section-shaped block after a blank paragraph keeps the separation. */
  lemma SeparatedAppend(q: seq<DocOp>, s: seq<DocOp>)
    requires |q| > 0 && q[|q| - 1] == BLANK && SectionsSeparated(q)
    requires |s| > 0 && IsSectionHeading(s[0]) && NoHeading(s[1..]) && s[|s| - 1] == BLANK
    ensures SectionsSeparated(q + s) && (q + s)[|q + s| - 1] == BLANK
  {
    var ops := q + s;
    forall p | 0 < p < |ops| ensures ops[p].Heading? ==> ops[p].level == 2 && ops[p - 1] == BLANK {
      if p < |q| {
        assert ops[p] == q[p] && ops[p - 1] == q[p - 1];
      } else if p > |q| {
        assert ops[p] == s[1..][p - |q| - 1];
      }
    }
  }

  /** After a blank-terminated, separated prefix, the body keeps every section heading behind a blank paragraph. */
  lemma {:induction false} BodySeparated(prefix: seq<DocOp>, cat: seq<SectionSpec>, sections: map<string, SectionRecord>)
    requires |prefix| > 0 && prefix[|prefix| - 1] == BLANK && SectionsSeparated(prefix)
    ensures var ops := prefix + BodyOps(cat, sections);
      SectionsSeparated(ops) && ops[|ops| - 1] == BLANK
  {
    if |cat| > 0 {
      var init, spec := cat[..|cat| - 1], cat[|cat| - 1];
      BodySeparated(prefix, init, sections);
      var q := prefix + BodyOps(init, sections);
      var c := Select(spec, RecordOf(sections, spec.key));
      RenderSectionShape(spec.title, c);
      var block := RenderSection(spec.title, c);
      SeparatedAppend(q, block);
      assert BodyOps(cat, sections) == BodyOps(init, sections) + block;
      AppendAssoc(prefix, BodyOps(init, sections), block);
    }
  }

  /**
   * The document's layout: it opens with the level-1 title heading; every
   * later heading is a level-2 section heading that directly follows a blank
   * paragraph; the section headings are the catalog's titles, once each, in
   * catalog order; and the document ends with a blank paragraph.
   */
  lemma DocumentLayout(cat: seq<SectionSpec>, meta: map<string, string>, sections: map<string, SectionRecord>)
    ensures var ops := DocumentScript(cat, meta, sections);
      && ops[0] == Heading(1, DOCUMENT_TITLE)
      && SectionsSeparated(ops)
      && ops[|ops| - 1] == BLANK
      && SectionTitles(ops) == Map(cat, TitleOf)
  {
    var header := HeaderOps(meta);
    HeaderShape(meta);
    BodySeparated(header, cat, sections);
    BodyTitles(cat, sections);
    SectionTitlesAppend(header, BodyOps(cat, sections));
  }

  /** No metadata paragraph is a heading. */
  lemma MetaLinesNoHeading(meta: map<string, string>)
    ensures NoHeading(Map(FilledFields(meta), MetaLine(meta)))
  {
    MapIndex(FilledFields(meta), MetaLine(meta));
  }

  /** A non-section heading followed by heading-free ops: separated, and no section titles. */
  lemma TitleBlock(h: DocOp, rest: seq<DocOp>)
    requires !IsSectionHeading(h) && NoHeading(rest)
    ensures SectionsSeparated([h] + rest) && SectionTitles([h] + rest) == []
  {
    var ops := [h] + rest;
    forall p | 0 < p < |ops| ensures !ops[p].Heading? {
      assert ops[p] == rest[p - 1];
    }
    NoHeadingNoTitles(rest);
    SectionTitlesAppend([h], rest);
    assert [h][..0] == [];
  }

  /** The header opens with the title heading, ends with a blank paragraph, and holds no section heading. */
  lemma HeaderShape(meta: map<string, string>)
    ensures var header := HeaderOps(meta);
      && header[0] == Heading(1, DOCUMENT_TITLE)
      && header[|header| - 1] == BLANK
      && SectionsSeparated(header)
      && SectionTitles(header) == []
  {
    var lines := Map(FilledFields(meta), MetaLine(meta));
    MetaLinesNoHeading(meta);
    NoHeadingAppend(lines, [BLANK]);
    assert HeaderOps(meta) == [Heading(1, DOCUMENT_TITLE)] + (lines + [BLANK]);
    TitleBlock(Heading(1, DOCUMENT_TITLE), lines + [BLANK]);
  }

  // ---------------------------------------------------------------------------
  // The live preview
  // ---------------------------------------------------------------------------

  function PreviewTitle(meta: map<string, string>): string {
    if Get(meta, "project_name") != "" then "# " + DOCUMENT_TITLE + " \U{2014} " + meta["project_name"]
    else "# " + DOCUMENT_TITLE
  }

  function Dash(t: string): string {
    "- " + t
  }

  /** One section of the preview: its "## " heading, its intro if any, and its bullets as "- " lines. */
  function PreviewBlock(title: string, c: SectionContent): seq<string> {
    ["\n## " + title] + (if c.intro != "" then [c.intro] else [])
      + Map(c.catalogBullets, Dash) + Map(c.customBullets, Dash)
  }

  function PreviewSection(spec: SectionSpec, rec: SectionRecord): seq<string> {
    PreviewBlock(spec.title, Select(spec, rec))
  }

  function PreviewBody(cat: seq<SectionSpec>, sections: map<string, SectionRecord>): seq<string> {
    if |cat| == 0 then []
    else
      var spec := cat[|cat| - 1];
      PreviewBody(cat[..|cat| - 1], sections) + PreviewSection(spec, RecordOf(sections, spec.key))
  }

  /** The lines the live preview joins and renders as Markdown. */
  function PreviewLines(cat: seq<SectionSpec>, meta: map<string, string>, sections: map<string, SectionRecord>): seq<string> {
    [PreviewTitle(meta)] + PreviewBody(cat, sections)
  }

  /** A preview line that opens a section: a newline, then "## ". */
  predicate IsSectionLine(line: string) {
    |line| >= 4 && line[..4] == "\n## "
  }

  /** The line that opens a catalog section in the preview. */
  function SectionLineOf(spec: SectionSpec): string {
    "\n## " + spec.title
  }

  /** No "- " bullet line opens a section. */
  lemma DashLinesNoSection(texts: seq<string>)
    ensures Filter(Map(texts, Dash), IsSectionLine) == []
  {
    var lines := Map(texts, Dash);
    MapIndex(texts, Dash);
    forall j | 0 <= j < |lines| ensures !IsSectionLine(lines[j]) {
      assert lines[j][0] == '-';
    }
    FilterNone(lines, IsSectionLine);
  }

  /**
   * One previewed section opens with exactly one section line, its own: an
   * intro that starts with no whitespace cannot start with the newline.
   */
  lemma PreviewBlockLines(title: string, c: SectionContent)
    requires c.intro == [] || !IsSpace(c.intro[0])
    ensures Filter(PreviewBlock(title, c), IsSectionLine) == ["\n## " + title]
  {
    var head, intro := "\n## " + title, if c.intro != "" then [c.intro] else [];
    var catalog, custom := Map(c.catalogBullets, Dash), Map(c.customBullets, Dash);
    var rest := intro + catalog + custom;
    AppendAssoc([head] + intro, catalog, custom);
    AppendAssoc([head], intro, catalog + custom);
    AppendAssoc(intro, catalog, custom);
    assert PreviewBlock(title, c) == [head] + rest;
    assert Filter(intro, IsSectionLine) == [] by {
      if c.intro != "" {
        assert c.intro[0] != '\n';
        FilterNone(intro, IsSectionLine);
      }
    }
    DashLinesNoSection(c.catalogBullets);
    DashLinesNoSection(c.customBullets);
    FilterAppend(intro, catalog, IsSectionLine);
    FilterAppend(intro + catalog, custom, IsSectionLine);
    assert head[..4] == "\n## ";
    FilterFirstOnly([head], rest, IsSectionLine);
  }

  /** The preview body opens one section per catalog entry, in catalog order, and no other. */
  lemma {:induction false} PreviewBodyLines(cat: seq<SectionSpec>, sections: map<string, SectionRecord>)
    ensures Filter(PreviewBody(cat, sections), IsSectionLine) == Map(cat, SectionLineOf)
  {
    if |cat| > 0 {
      var init, spec := cat[..|cat| - 1], cat[|cat| - 1];
      var rec := RecordOf(sections, spec.key);
      PreviewBodyLines(init, sections);
      StripSpec(rec.intro.GetOr(""));
      PreviewBlockLines(spec.title, Select(spec, rec));
      FilterAppend(PreviewBody(init, sections), PreviewSection(spec, rec), IsSectionLine);
      assert cat == init + [spec];
      MapSnoc(init, spec, SectionLineOf);
    }
  }

  /**
   * The preview opens with its "# " title line, and its section lines are
   * exactly the catalog's titles, each after a newline and "## ", in
   * catalog order: the layout the document's `DocumentLayout` states.
   */
  lemma PreviewLayout(cat: seq<SectionSpec>, meta: map<string, string>, sections: map<string, SectionRecord>)
    ensures var lines := PreviewLines(cat, meta, sections);
      && lines[0] == PreviewTitle(meta)
      && lines[0][..2] == "# "
      && Filter(lines, IsSectionLine) == Map(cat, SectionLineOf)
  {
    var title := PreviewTitle(meta);
    assert title[0] == '#';
    FilterNone([title], IsSectionLine);
    PreviewBodyLines(cat, sections);
    FilterAppend([title], PreviewBody(cat, sections), IsSectionLine);
  }

  // ---------------------------------------------------------------------------
  // What the rendering depends on
  // ---------------------------------------------------------------------------

  /** Two section maps that agree on the catalog's sections, a missing record counting as `{}`. */
  predicate SameCatalogRecords(cat: seq<SectionSpec>, a: map<string, SectionRecord>, b: map<string, SectionRecord>) {
    forall i :: 0 <= i < |cat| ==> RecordOf(a, cat[i].key) == RecordOf(b, cat[i].key)
  }

  lemma {:induction false} CatalogRecordsDecide(cat: seq<SectionSpec>, a: map<string, SectionRecord>, b: map<string, SectionRecord>)
    requires SameCatalogRecords(cat, a, b)
    ensures BodyOps(cat, a) == BodyOps(cat, b)
    ensures PreviewBody(cat, a) == PreviewBody(cat, b)
  {
    if |cat| > 0 {
      var init := cat[..|cat| - 1];
      assert SameCatalogRecords(init, a, b) by {
        forall i | 0 <= i < |init| ensures RecordOf(a, init[i].key) == RecordOf(b, init[i].key) {
          assert init[i] == cat[i];
        }
      }
      CatalogRecordsDecide(init, a, b);
      assert RecordOf(a, cat[|cat| - 1].key) == RecordOf(b, cat[|cat| - 1].key);
    }
  }

  /**
   * Only the catalog's sections are rendered: a record stored under a key
   * the catalog does not have changes neither the document nor the preview.
   */
  lemma UnknownSectionsNotRendered(cat: seq<SectionSpec>, meta: map<string, string>,
                                   sections: map<string, SectionRecord>, key: string, rec: SectionRecord)
    requires key !in SectionKeys(cat)
    ensures DocumentScript(cat, meta, sections[key := rec]) == DocumentScript(cat, meta, sections)
    ensures PreviewLines(cat, meta, sections[key := rec]) == PreviewLines(cat, meta, sections)
  {
    assert SameCatalogRecords(cat, sections[key := rec], sections) by {
      forall i | 0 <= i < |cat| ensures RecordOf(sections[key := rec], cat[i].key) == RecordOf(sections, cat[i].key) {
        assert cat[i].key in SectionKeys(cat);
      }
    }
    CatalogRecordsDecide(cat, sections[key := rec], sections);
  }

  /** A missing section record renders exactly like an empty one. */
  lemma MissingSectionIsEmpty(cat: seq<SectionSpec>, meta: map<string, string>,
                              sections: map<string, SectionRecord>, key: string)
    requires key !in sections
    ensures DocumentScript(cat, meta, sections[key := EmptyRecord]) == DocumentScript(cat, meta, sections)
    ensures PreviewLines(cat, meta, sections[key := EmptyRecord]) == PreviewLines(cat, meta, sections)
  {
    assert SameCatalogRecords(cat, sections[key := EmptyRecord], sections);
    CatalogRecordsDecide(cat, sections[key := EmptyRecord], sections);
  }

  /** An empty record renders as the bare section heading followed by the blank paragraph. */
  lemma EmptyRecordSection(spec: SectionSpec)
    ensures SectionOps(spec, EmptyRecord) == [Heading(2, spec.title), BLANK]
    ensures PreviewSection(spec, EmptyRecord) == ["\n## " + spec.title]
  {
    assert IntroText(EmptyRecord) == "";
    FilterNone(spec.bullets, Toggled(map[]));
    assert CatalogTexts(spec.bullets, map[]) == [];
    assert CleanCustom([]) == [];
    assert Select(spec, EmptyRecord) == SectionContent("", [], []);
  }

  // ---------------------------------------------------------------------------
  // How the custom-bullet edits show up
  // ---------------------------------------------------------------------------

  lemma CleanCustomAppend(a: seq<string>, b: seq<string>)
    ensures CleanCustom(a + b) == CleanCustom(a) + CleanCustom(b)
  {
    MapAppend(a, b, Strip);
    FilterAppend(Map(a, Strip), Map(b, Strip), NonBlank);
  }

  /**
   * Adding a non-blank custom bullet shows exactly one more bullet, the
   * stripped text, after the ones already shown.
   */
  lemma AddedBulletShown(custom: seq<string>, text: string)
    ensures Strip(text) != "" ==> CleanCustom(custom + [Strip(text)]) == CleanCustom(custom) + [Strip(text)]
  {
    StripIdempotent(text);
    MapSnoc(custom, Strip(text), Strip);
    FilterSnoc(Map(custom, Strip), Strip(Strip(text)), NonBlank);
  }

  /**
   * Deleting entry `idx` removes exactly that entry's bullet from what is
   * shown (nothing, if the entry was blank) and keeps the others in order.
   */
  lemma DeletedBulletGone(custom: seq<string>, idx: nat)
    requires idx < |custom|
    ensures CleanCustom(custom) == CleanCustom(custom[..idx]) + CleanCustom([custom[idx]]) + CleanCustom(custom[idx + 1..])
    ensures CleanCustom(RemoveAt(custom, idx)) == CleanCustom(custom[..idx]) + CleanCustom(custom[idx + 1..])
    ensures CleanCustom([custom[idx]]) == if Strip(custom[idx]) == "" then [] else [Strip(custom[idx])]
  {
    assert custom == custom[..idx] + [custom[idx]] + custom[idx + 1..];
    CleanCustomAppend(custom[..idx] + [custom[idx]], custom[idx + 1..]);
    CleanCustomAppend(custom[..idx], [custom[idx]]);
    CleanCustomAppend(custom[..idx], custom[idx + 1..]);
    MapSnoc([], custom[idx], Strip);
    FilterSnoc([], Strip(custom[idx]), NonBlank);
    assert [] + [custom[idx]] == [custom[idx]];
    assert [] + [Strip(custom[idx])] == [Strip(custom[idx])];
  }
}
