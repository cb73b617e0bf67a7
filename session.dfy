/**
 * The session store (`st.session_state`) and the operations the form runs
 * on it: seeding, importing a JSON payload, the custom-bullet buttons, and
 * building the document script and the preview from the held state.
 */
module Session {
  import opened Wrappers
  import opened Seqs
  import opened Text
  import opened Catalog
  import opened Config
  import opened Render

  /** What a custom-bullet button handler did. */
  datatype EditOutcome =
    | Applied
    | SkippedBlank   // the text was blank after stripping: nothing to add
    | MissingList    // the record has no custom-bullet list: the handler raises, nothing changes

  /** One user's session state; `None` means the session does not hold that key yet. */
  class NarrativeSession {
    var sections: Option<map<string, SectionRecord>>
    var projectMeta: Option<map<string, string>>

    /** A new session holds neither key. */
    constructor ()
      ensures sections == None && projectMeta == None
    {
      sections := None;
      projectMeta := None;
    }

    predicate Initialised()
      reads this
    {
      sections.Some? && projectMeta.Some?
    }

    /** Both keys are held, every catalog section has a record, and every seeded metadata key is present. */
    predicate Valid()
      reads this
    {
      && Initialised()
      && SectionKeys(CATALOG) <= sections.value.Keys
      && (set k | k in META_KEYS) <= projectMeta.value.Keys
    }

    /**
     * In a valid session every catalog section has a record: the lookup the
     * section editor makes for each catalog key finds one, which is what
     * the custom-bullet handlers below require.
     */
    lemma CatalogSectionHeld(key: string)
      requires Valid() && key in SectionKeys(CATALOG)
      ensures Initialised() && key in sections.value
    {
    }

    /** The configuration the session holds. */
    function Held(): Config
      reads this
      requires Initialised()
    {
      Config(projectMeta.value, sections.value)
    }

    /**
     * `init_state`: seeds whichever of the two keys the session lacks,
     * leaving a key it already holds alone; so a second call changes
     * nothing, and seeding a new session makes it valid.
     */
    method InitState()
      modifies this
      ensures sections == if old(sections).None? then Some(InitialSections(CATALOG)) else old(sections)
      ensures projectMeta == if old(projectMeta).None? then Some(InitialMeta()) else old(projectMeta)
      ensures old(Initialised()) ==> sections == old(sections) && projectMeta == old(projectMeta)
      ensures old(sections).None? && old(projectMeta).None? ==> Valid()
      ensures old(Valid()) ==> Valid()
    {
      if sections.None? {
        sections := Some(map[]);
        var i := 0;
        while i < |CATALOG|
          invariant 0 <= i <= |CATALOG|
          invariant sections == Some(InitialSections(CATALOG[..i]))
          invariant projectMeta == old(projectMeta)
        {
          var sec := CATALOG[i];
          assert CATALOG[..i + 1][..i] == CATALOG[..i];
          sections := Some(sections.value[sec.key := SeedRecord(sec)]);
          i := i + 1;
        }
        assert CATALOG[..|CATALOG|] == CATALOG;
      }
      if projectMeta.None? {
        projectMeta := Some(InitialMeta());
      }
      if old(sections).None? {
        CatalogWellFormed();
        InitialSectionsSeed(CATALOG);
      }
      if old(projectMeta).None? {
        InitialMetaShape();
      }
    }

    /**
     * `import_json`, given what `json.loads` made of the text. The held
     * configuration and the exception raised are those `Import` describes:
     * metadata is updated first, then each section record is assigned in
     * turn. Keys are only ever added, so a valid session stays valid.
     */
    method ImportJson(parsed: Parsed) returns (error: Option<ImportError>)
      requires Initialised()
      modifies this
      ensures Initialised()
      ensures Import(old(Held()), parsed) == ImportResult(Held(), error)
      ensures old(Valid()) ==> Valid()
    {
      if parsed.SyntaxError? {
        return Some(InvalidJson(parsed.message));
      }
      var cand := parsed.candidate;
      if cand.projectMeta.Some? {
        match cand.projectMeta.value
        case NotObject =>
          return Some(MetaNotObject);
        case EmptySequence =>
        case Object(m) =>
          projectMeta := Some(projectMeta.value + m);
      }
      ghost var meta := projectMeta;
      if cand.sections.Some? {
        match cand.sections.value
        case NotObject =>
          return Some(SectionsNotObject);
        case EmptySequence =>
          return Some(SectionsNotObject);
        case Object(incoming) =>
          var pending := incoming.Keys;
          while pending != {}
            invariant pending <= incoming.Keys
            invariant projectMeta == meta
            invariant sections.Some?
            invariant sections.value.Keys == old(sections.value).Keys + (incoming.Keys - pending)
            invariant forall k :: k in incoming.Keys - pending ==> sections.value[k] == incoming[k]
            invariant forall k :: k in old(sections.value) && k !in incoming.Keys - pending ==>
                        sections.value[k] == old(sections.value)[k]
            decreases pending
          {
            var k :| k in pending;
            sections := Some(sections.value[k := incoming[k]]);
            pending := pending - {k};
          }
          assert sections.value == Overlay(old(sections.value), incoming);
      }
      return None;
    }

    /**
     * The "Add bullet" button: appends the stripped text to the section's
     * custom-bullet list when it is not blank. Blank text changes nothing;
     * a record without a list makes the handler raise, changing nothing.
     * No other section and no metadata is touched.
     */
    method AddCustomBullet(key: string, text: string) returns (outcome: EditOutcome)
      requires Initialised() && key in sections.value
      modifies this
      ensures projectMeta == old(projectMeta)
      ensures var rec := old(sections.value[key]);
        && (Strip(text) == "" ==> outcome == SkippedBlank && sections == old(sections))
        && (Strip(text) != "" && rec.customBullets.None? ==> outcome == MissingList && sections == old(sections))
        && (Strip(text) != "" && rec.customBullets.Some? ==>
              && outcome == Applied
              && sections == Some(old(sections.value)[key := rec.(customBullets := Some(rec.customBullets.value + [Strip(text)]))]))
      ensures old(Valid()) ==> Valid()
    {
      var cb := Strip(text);
      if cb == "" {
        return SkippedBlank;
      }
      var data := sections.value[key];
      if data.customBullets.None? {
        return MissingList;
      }
      sections := Some(sections.value[key := data.(customBullets := Some(data.customBullets.value + [cb]))]);
      return Applied;
    }

    /** The "Clear custom bullets" button: the section's list becomes empty; nothing else changes. */
    method ClearCustomBullets(key: string)
      requires Initialised() && key in sections.value
      modifies this
      ensures projectMeta == old(projectMeta)
      ensures sections == Some(old(sections.value)[key := old(sections.value[key]).(customBullets := Some([]))])
      ensures old(Valid()) ==> Valid()
    {
      var data := sections.value[key];
      sections := Some(sections.value[key := data.(customBullets := Some([]))]);
    }

    /**
     * The delete button of entry `idx`: the list loses exactly that entry
     * and keeps the others in order; nothing else changes.
     */
    method DeleteCustomBullet(key: string, idx: nat)
      requires Initialised() && key in sections.value
      requires sections.value[key].customBullets.Some? && idx < |sections.value[key].customBullets.value|
      modifies this
      ensures projectMeta == old(projectMeta)
      ensures var rec := old(sections.value[key]);
        sections == Some(old(sections.value)[key := rec.(customBullets := Some(RemoveAt(rec.customBullets.value, idx)))])
      ensures old(Valid()) ==> Valid()
    {
      var data := sections.value[key];
      var list := data.customBullets.value;
      sections := Some(sections.value[key := data.(customBullets := Some(list[..idx] + list[idx + 1..]))]);
    }

    /**
     * `build_docx_bytes` up to the point where the document is saved: the
     * builder calls it makes, in order, for the held metadata and sections.
     */
    method BuildDocxScript() returns (ops: seq<DocOp>)
      requires Initialised()
      ensures ops == DocumentScript(CATALOG, projectMeta.value, sections.value)
    {
      ops := WriteHeader(projectMeta.value);
      var i := 0;
      while i < |CATALOG|
        invariant 0 <= i <= |CATALOG|
        invariant ops == HeaderOps(projectMeta.value) + BodyOps(CATALOG[..i], sections.value)
      {
        var sec := CATALOG[i];
        var data := RecordOf(sections.value, sec.key);
        BodyStep(CATALOG, i, sections.value, HeaderOps(projectMeta.value));
        ops := WriteSection(ops, sec, data);
        i := i + 1;
      }
      BodyWhole(CATALOG, sections.value);
    }

    /** The lines of the live preview for the held metadata and sections. */
    method PreviewMarkdownLines() returns (lines: seq<string>)
      requires Initialised()
      ensures lines == PreviewLines(CATALOG, projectMeta.value, sections.value)
    {
      var pm := projectMeta.value;
      if Get(pm, "project_name") != "" {
        lines := ["# " + DOCUMENT_TITLE + " \U{2014} " + pm["project_name"]];
      } else {
        lines := ["# " + DOCUMENT_TITLE];
      }
      var i := 0;
      while i < |CATALOG|
        invariant 0 <= i <= |CATALOG|
        invariant lines == [PreviewTitle(pm)] + PreviewBody(CATALOG[..i], sections.value)
      {
        var sec := CATALOG[i];
        var data := RecordOf(sections.value, sec.key);
        PreviewStep(CATALOG, i, sections.value, [PreviewTitle(pm)]);
        lines := WritePreviewSection(lines, sec, data);
        i := i + 1;
      }
      PreviewWhole(CATALOG, sections.value);
    }
  }

  /**
   * The title and metadata paragraphs `build_docx_bytes` writes before the
   * sections. The source spells out one `if` per field; here they are one
   * loop over the table of the five (key, caption) pairs, in the same order.
   */
  method WriteHeader(pm: map<string, string>) returns (ops: seq<DocOp>)
    ensures ops == HeaderOps(pm)
  {
    ops := [Heading(1, DOCUMENT_TITLE)];
    assert META_FIELDS[..0] == [];
    var n := 0;
    while n < |META_FIELDS|
      invariant 0 <= n <= |META_FIELDS|
      invariant ops == HeaderLines(pm, META_FIELDS[..n])
    {
      var f := META_FIELDS[n];
      assert META_FIELDS[..n + 1] == META_FIELDS[..n] + [f];
      HeaderStep(pm, META_FIELDS[..n], f, ops);
      if Get(pm, f.key) != "" {
        ops := ops + [Paragraph(f.caption + pm[f.key])];
      }
      n := n + 1;
    }
    assert META_FIELDS[..n] == META_FIELDS;
    ops := ops + [BLANK];
  }

  /** One iteration of the section loop of `build_docx_bytes`: appends the calls for one section. */
  method WriteSection(ops0: seq<DocOp>, sec: SectionSpec, data: SectionRecord) returns (ops: seq<DocOp>)
    ensures ops == ops0 + SectionOps(sec, data)
  {
    var intro := Strip(data.intro.GetOr(""));
    var bulletsState := data.toggles.GetOr(map[]);
    var customBullets := data.customBullets.GetOr([]);

    ops := ops0 + [Heading(2, sec.title)];
    if intro != "" {
      ops := ops + [Paragraph(intro)];
    }
    ghost var afterIntro := ops;
    ops := WriteCatalogBullets(ops, sec.bullets, bulletsState);
    ghost var afterCatalog := ops;
    ops := WriteCustomBullets(ops, customBullets);
    ops := ops + [BLANK];
    SectionOpsParts(ops0, sec, data, afterIntro, afterCatalog, ops);
  }

  /** The catalog-bullet loop of `build_docx_bytes`: one bullet per ticked catalog entry, in catalog order. */
  method WriteCatalogBullets(ops0: seq<DocOp>, bullets: seq<BulletItem>, bulletsState: map<string, bool>)
    returns (ops: seq<DocOp>)
    ensures ops == ops0 + Map(CatalogTexts(bullets, bulletsState), AsBullet)
  {
    ops := ops0;
    var j := 0;
    while j < |bullets|
      invariant 0 <= j <= |bullets|
      invariant ops == ops0 + Map(CatalogTexts(bullets[..j], bulletsState), AsBullet)
    {
      var b := bullets[j];
      CatalogBulletStep(ops0, bullets, j, bulletsState, ops, AsBullet);
      if IsOn(bulletsState, b.key) {
        ops := ops + [Bullet(b.text)];
      }
      j := j + 1;
    }
    assert bullets[..j] == bullets;
  }

  /** The custom-bullet loop of `build_docx_bytes`: one bullet per non-blank entry, stripped, in list order. */
  method WriteCustomBullets(ops0: seq<DocOp>, customBullets: seq<string>) returns (ops: seq<DocOp>)
    ensures ops == ops0 + Map(CleanCustom(customBullets), AsBullet)
  {
    ops := ops0;
    var k := 0;
    while k < |customBullets|
      invariant 0 <= k <= |customBullets|
      invariant ops == ops0 + Map(CleanCustom(customBullets[..k]), AsBullet)
    {
      var cb := Strip(customBullets[k]);
      CustomBulletStep(ops0, customBullets, k, cb, ops, AsBullet);
      if cb != "" {
        ops := ops + [Bullet(cb)];
      }
      k := k + 1;
    }
    assert customBullets[..k] == customBullets;
  }

  /** One iteration of the section loop of the preview: appends the lines for one section. */
  method WritePreviewSection(lines0: seq<string>, sec: SectionSpec, data: SectionRecord) returns (lines: seq<string>)
    ensures lines == lines0 + PreviewSection(sec, data)
  {
    var intro := Strip(data.intro.GetOr(""));
    var bulletsState := data.toggles.GetOr(map[]);
    var customBullets := data.customBullets.GetOr([]);

    lines := lines0 + ["\n## " + sec.title];
    if intro != "" {
      lines := lines + [intro];
    }
    ghost var afterIntro := lines;
    lines := PreviewCatalogBullets(lines, sec.bullets, bulletsState);
    ghost var afterCatalog := lines;
    lines := PreviewCustomBullets(lines, customBullets);
    PreviewSectionParts(lines0, sec, data, afterIntro, afterCatalog, lines);
  }

  /** The catalog-bullet loop of the preview: a `- ` line per ticked catalog entry, in catalog order. */
  method PreviewCatalogBullets(lines0: seq<string>, bullets: seq<BulletItem>, bulletsState: map<string, bool>)
    returns (lines: seq<string>)
    ensures lines == lines0 + Map(CatalogTexts(bullets, bulletsState), Dash)
  {
    lines := lines0;
    var j := 0;
    while j < |bullets|
      invariant 0 <= j <= |bullets|
      invariant lines == lines0 + Map(CatalogTexts(bullets[..j], bulletsState), Dash)
    {
      var b := bullets[j];
      CatalogBulletStep(lines0, bullets, j, bulletsState, lines, Dash);
      if IsOn(bulletsState, b.key) {
        lines := lines + ["- " + b.text];
      }
      j := j + 1;
    }
    assert bullets[..j] == bullets;
  }

  /** The custom-bullet loop of the preview: a `- ` line per non-blank entry, stripped, in list order. */
  method PreviewCustomBullets(lines0: seq<string>, customBullets: seq<string>) returns (lines: seq<string>)
    ensures lines == lines0 + Map(CleanCustom(customBullets), Dash)
  {
    lines := lines0;
    var k := 0;
    while k < |customBullets|
      invariant 0 <= k <= |customBullets|
      invariant lines == lines0 + Map(CleanCustom(customBullets[..k]), Dash)
    {
      var cb := Strip(customBullets[k]);
      CustomBulletStep(lines0, customBullets, k, cb, lines, Dash);
      if cb != "" {
        lines := lines + ["- " + cb];
      }
      k := k + 1;
    }
    assert customBullets[..k] == customBullets;
  }

  /** The pieces `WriteSection` appends make up `SectionOps`. */
  lemma SectionOpsParts(ops0: seq<DocOp>, sec: SectionSpec, data: SectionRecord,
                        afterIntro: seq<DocOp>, afterCatalog: seq<DocOp>, ops: seq<DocOp>)
    requires afterIntro == ops0 + [Heading(2, sec.title)] + IntroOps(IntroText(data))
    requires afterCatalog == afterIntro + Map(CatalogTexts(sec.bullets, data.toggles.GetOr(map[])), AsBullet)
    requires ops == afterCatalog + Map(CleanCustom(data.customBullets.GetOr([])), AsBullet) + [BLANK]
    ensures ops == ops0 + SectionOps(sec, data)
  {
    var c := Select(sec, data);
    Assoc5(ops0, [Heading(2, sec.title)], IntroOps(c.intro), Map(c.catalogBullets, AsBullet),
           Map(c.customBullets, AsBullet), [BLANK]);
  }

  /** The pieces `WritePreviewSection` appends make up `PreviewSection`. */
  lemma PreviewSectionParts(lines0: seq<string>, sec: SectionSpec, data: SectionRecord,
                            afterIntro: seq<string>, afterCatalog: seq<string>, lines: seq<string>)
    requires afterIntro == lines0 + ["\n## " + sec.title] + (if IntroText(data) != "" then [IntroText(data)] else [])
    requires afterCatalog == afterIntro + Map(CatalogTexts(sec.bullets, data.toggles.GetOr(map[])), Dash)
    requires lines == afterCatalog + Map(CleanCustom(data.customBullets.GetOr([])), Dash)
    ensures lines == lines0 + PreviewSection(sec, data)
  {
    var c := Select(sec, data);
    Assoc4(lines0, ["\n## " + sec.title], if c.intro != "" then [c.intro] else [],
           Map(c.catalogBullets, Dash), Map(c.customBullets, Dash));
  }

  /** One more catalog section rendered, after the header `head`. */
  lemma BodyStep(cat: seq<SectionSpec>, i: nat, sections: map<string, SectionRecord>, head: seq<DocOp>)
    requires i < |cat|
    ensures head + BodyOps(cat[..i + 1], sections)
         == head + BodyOps(cat[..i], sections) + SectionOps(cat[i], RecordOf(sections, cat[i].key))
  {
    assert cat[..i + 1][..i] == cat[..i];
  }

  lemma BodyWhole(cat: seq<SectionSpec>, sections: map<string, SectionRecord>)
    ensures BodyOps(cat[..|cat|], sections) == BodyOps(cat, sections)
  {
    assert cat[..|cat|] == cat;
  }

  /** One more catalog section previewed, after the title line(s) `head`. */
  lemma PreviewStep(cat: seq<SectionSpec>, i: nat, sections: map<string, SectionRecord>, head: seq<string>)
    requires i < |cat|
    ensures head + PreviewBody(cat[..i + 1], sections)
         == head + PreviewBody(cat[..i], sections) + PreviewSection(cat[i], RecordOf(sections, cat[i].key))
  {
    assert cat[..i + 1][..i] == cat[..i];
  }

  lemma PreviewWhole(cat: seq<SectionSpec>, sections: map<string, SectionRecord>)
    ensures PreviewBody(cat[..|cat|], sections) == PreviewBody(cat, sections)
  {
    assert cat[..|cat|] == cat;
  }

  /** The title and the metadata lines for the fields in `fields`. */
  function HeaderLines(meta: map<string, string>, fields: seq<MetaField>): seq<DocOp> {
    [Heading(1, DOCUMENT_TITLE)] + Map(Filter(fields, Filled(meta)), MetaLine(meta))
  }

  /** One more metadata field looked at: the step of the header loop. */
  lemma HeaderStep(meta: map<string, string>, fields: seq<MetaField>, f: MetaField, before: seq<DocOp>)
    requires before == HeaderLines(meta, fields)
    ensures Get(meta, f.key) != "" ==> before + [Paragraph(f.caption + meta[f.key])] == HeaderLines(meta, fields + [f])
    ensures Get(meta, f.key) == "" ==> before == HeaderLines(meta, fields + [f])
  {
    FilterSnoc(fields, f, Filled(meta));
    if Get(meta, f.key) != "" {
      var shown := Filter(fields, Filled(meta));
      MapSnoc(shown, f, MetaLine(meta));
      AppendAssoc([Heading(1, DOCUMENT_TITLE)], Map(shown, MetaLine(meta)), [MetaLine(meta)(f)]);
    }
  }

  /** One more catalog bullet looked at: the step of the catalog-bullet loops, for either output. */
  lemma CatalogBulletStep<T>(acc0: seq<T>, bullets: seq<BulletItem>, j: nat, toggles: map<string, bool>,
                             before: seq<T>, render: string -> T)
    requires j < |bullets|
    requires before == acc0 + Map(CatalogTexts(bullets[..j], toggles), render)
    ensures IsOn(toggles, bullets[j].key) ==>
              before + [render(bullets[j].text)] == acc0 + Map(CatalogTexts(bullets[..j + 1], toggles), render)
    ensures !IsOn(toggles, bullets[j].key) ==>
              before == acc0 + Map(CatalogTexts(bullets[..j + 1], toggles), render)
  {
    var b := bullets[j];
    assert bullets[..j + 1] == bullets[..j] + [b];
    CatalogTextsSnoc(bullets[..j], b, toggles);
    if IsOn(toggles, b.key) {
      MapSnoc(CatalogTexts(bullets[..j], toggles), b.text, render);
      AppendAssoc(acc0, Map(CatalogTexts(bullets[..j], toggles), render), [render(b.text)]);
    }
  }

  /** One more custom bullet looked at: the step of the custom-bullet loops, for either output. */
  lemma CustomBulletStep<T>(acc0: seq<T>, custom: seq<string>, k: nat, cb: string, before: seq<T>, render: string -> T)
    requires k < |custom| && cb == Strip(custom[k])
    requires before == acc0 + Map(CleanCustom(custom[..k]), render)
    ensures cb != "" ==> before + [render(cb)] == acc0 + Map(CleanCustom(custom[..k + 1]), render)
    ensures cb == "" ==> before == acc0 + Map(CleanCustom(custom[..k + 1]), render)
  {
    assert custom[..k + 1] == custom[..k] + [custom[k]];
    CleanCustomSnoc(custom[..k], custom[k]);
    if cb != "" {
      MapSnoc(CleanCustom(custom[..k]), cb, render);
      AppendAssoc(acc0, Map(CleanCustom(custom[..k]), render), [render(cb)]);
    }
  }
}
