# MEP SD Narrative builder: a Dafny model of its core

`mep_narrative_app.py` is a Streamlit form for a mechanical/electrical/plumbing
schematic-design narrative. A static catalog (`SECTIONS`) lists seven sections.
Each section has a default intro and a few toggleable boilerplate bullets. The
user's choices live in the session store, in two keys:
`project_meta` (five text fields) and `sections` (one record per section: intro, toggles,
custom bullets). From the store the app builds a Word document and a live
Markdown preview. The store can be saved as JSON and merged back in.

This project models that core:

- `Catalog` holds the `SECTIONS` data and proves it well-formed (distinct
  section keys, distinct bullet keys within a section).
- `Config` describes the values involved:
  - what `init_state` seeds;
  - what `import_json` does to the held configuration, as a function `Import`;
  - the export payload of `export_json`;
  - `list.pop` as `RemoveAt`.
- `Render` states the document as a script of builder calls:
  - a level-1 heading, metadata paragraphs, then per section a level-2
    heading, an intro paragraph, bullets and a blank paragraph;
  - the preview as a list of lines;
  - the shared selection rules: which intro, which catalog bullets and which
    custom bullets are shown.
- `Session` is the store itself. Class `NarrativeSession` has the two keys as
  fields (`None` while the session does not hold the key). Its methods do what
  the source does step by step:
  - seeding;
  - the import merge, with its loop over the incoming sections;
  - the three custom-bullet buttons;
  - the document loop and the preview loop, each proved equal to the `Render`
    specification.

  The loop bodies of `build_docx_bytes` and of the preview are split into
  module-level methods (`WriteHeader`, `WriteSection`, `WriteCatalogBullets`,
  ...) that keep their loops and invariants.
- `Text` holds Python's `str.strip` (full Python whitespace set), the
  case-insensitive `.docx` check and the download file name.
- `Seqs` holds generic `Filter`/`Map` on sequences, with lemmas that relate a
  filtered sequence to the increasing positions it keeps.

The import is **not all-or-nothing**: `project_meta` is updated at line 150 before
the `sections` value is iterated at line 153. A payload whose `project_meta`
is an object but whose `sections` is not raises after the metadata has
changed. The model follows the code (`Config.Import`, `Config.ImportNotAtomic`,
`Config.PartialImportWitness`). Only text that does not parse is guaranteed to
leave the store unchanged. The sidebar catches the exception and reports
it (lines 232-238); whatever the import had already changed stays changed.

A missing toggle means **off** in the document and the preview (lines 191,
327), but the bullet's `default_on` in the section editor (line 276).
`Render.ToggleDefaults` states both readings. No blank-line paragraph
segmentation appears in this file.

## Model

| member | source | states |
|---|---|---|
| Catalog.CatalogWellFormed | mep_narrative_app.py:30-112 | The catalog has seven sections with pairwise distinct keys, and no section has two bullets with the same key. |
| Config.DefaultTogglesSeed | mep_narrative_app.py:123 | With distinct bullet keys, the seeded toggle map has exactly one key per bullet, mapped to that bullet's `default_on`. |
| Config.InitialSectionsKeys | mep_narrative_app.py:118-125 | Seeding a well-formed catalog stores exactly the catalog's keys, each mapped to that section's seed record. |
| Config.InitialSectionsSeed | mep_narrative_app.py:117-125 | After seeding, every catalog section has intro = `intro_default`, one toggle per bullet equal to its `default_on`, and an empty custom list; no other key is present. |
| Config.InitialMetaShape | mep_narrative_app.py:126-133 | The seeded metadata has exactly the five keys, all mapped to "". |
| Config.Overlay | mep_narrative_app.py:150 | `dict.update`: incoming keys take the incoming value, other held keys keep theirs, and no key is removed. |
| Config.ImportSyntaxErrorUnchanged | mep_narrative_app.py:147-148 | Text that does not parse leaves the configuration unchanged and reports the parse error. |
| Config.ImportMetadata | mep_narrative_app.py:149-150 | Each candidate metadata key overwrites the held value; other held keys keep their values; no key is lost. A candidate without `project_meta`, or with an empty string or list there, leaves the metadata alone. Any other non-object `project_meta` changes nothing and raises, and only such a `project_meta` raises `MetaNotObject`. |
| Config.ImportSections | mep_narrative_app.py:149-154 | Each candidate section replaces the held record wholesale, catalog key or not. Held sections the candidate does not name are untouched. Without a `sections` object the sections are unchanged, and a `sections` present but not an object raises. The import raises nothing if and only if `project_meta` is absent, an object or an empty sequence and `sections` is absent or an object. |
| Config.ImportEmptyCandidate | mep_narrative_app.py:147-154 | A payload with neither key, or with two empty objects, changes nothing and raises nothing. |
| Config.EmptyMetaSequenceMerges | mep_narrative_app.py:149-154 | An empty string or list as `project_meta` is an empty `update`: the sections object is still merged and nothing is raised. The same value as `sections` raises, with nothing changed. |
| Config.ImportNotAtomic | mep_narrative_app.py:149-154 | A metadata object followed by a non-object `sections` raises, with the metadata overlay already applied and the sections unchanged. |
| Config.PartialImportWitness | mep_narrative_app.py:149-154 | A concrete payload where the import raises and the held configuration has still changed: the date is now "2024-05-01". |
| Config.ImportIdempotent | mep_narrative_app.py:147-154 | Importing the same parsed payload twice gives the same configuration and outcome as importing it once. |
| Config.ExportImportRoundTrip | mep_narrative_app.py:140-154 | Importing a configuration's export into any configuration whose keys it covers reproduces it exactly, including records under non-catalog keys. |
| Config.RemoveAt | mep_narrative_app.py:300 | `pop(idx)` removes exactly the element at `idx`: earlier elements stay in place, later ones move up by one, and the multiset loses just that element. |
| Text.TrimStartSpec | mep_narrative_app.py:180 | Left-trimming removes exactly the leading run of whitespace; the result starts with a non-whitespace character or is empty. |
| Text.TrimEndSpec | mep_narrative_app.py:180 | Right-trimming removes exactly the trailing run of whitespace; the result ends with a non-whitespace character or is empty. |
| Text.StripSpec | mep_narrative_app.py:180 | `strip()` returns a contiguous slice with whitespace removed on both sides and none left at its ends. It is empty exactly when the input is all whitespace. |
| Text.StripIdempotent | mep_narrative_app.py:287-288 | Stripping twice equals stripping once, so a stored custom bullet is already stripped. |
| Text.DocxFileName | mep_narrative_app.py:246 | The file name always ends in ".docx" case-insensitively and starts with the typed name. A name that already ends that way is unchanged; otherwise exactly ".docx" is appended. |
| Text.DocxFileNameIdempotent | mep_narrative_app.py:246 | Normalising the file name twice equals normalising it once. |
| Text.DocxFileNameExamples | mep_narrative_app.py:246 | "Narrative.DOCX" is kept as typed; "Narrative" and "" get ".docx" appended. |
| Render.CatalogBulletSelection | mep_narrative_app.py:190-193 | The catalog bullets shown are the texts of the bullets at increasing positions. A position is shown iff its toggle is present and true; an absent toggle is off. |
| Render.CustomBulletSelection | mep_narrative_app.py:196-200 | The custom bullets shown are the stripped entries at increasing positions. A position is shown iff its entry is not blank; every bullet shown is non-empty and already stripped. |
| Render.ToggleDefaults | mep_narrative_app.py:274-276 | Editor and document agree on a stored toggle. For a missing one, the editor shows `default_on` and the document treats it as off. |
| Render.MetaFieldsMatchSeed | mep_narrative_app.py:164-173 | The document prints exactly the five metadata keys `init_state` seeds (lines 127-133), in the same order. |
| Render.DocumentHeader | mep_narrative_app.py:163-176 | The document opens with the level-1 "MEP SD Narrative" heading. Then come one paragraph "caption + value" per non-empty metadata field, in field order, then one blank paragraph. A field appears iff its key is present with a non-empty value. |
| Render.HeaderContents | mep_narrative_app.py:163-176 | The header is the title heading, then one paragraph "caption + value" for the i-th filled field, for each i, then the blank paragraph; its length is the number of filled fields plus two. |
| Render.InitialHeader | mep_narrative_app.py:163-176 | With the seeded all-empty metadata the header is the title heading followed by the blank paragraph. |
| Render.HeaderShape | mep_narrative_app.py:163-176 | The header starts with the title heading, ends with the blank paragraph, and contains no level-2 heading. |
| Render.RenderSectionShape | mep_narrative_app.py:184-202 | A section's calls start with its level-2 heading, end with a blank paragraph, and contain no other heading. |
| Render.BodyTitles | mep_narrative_app.py:178-184 | The body has exactly one level-2 heading per catalog section, with the catalog's titles in catalog order. |
| Render.BodySeparated | mep_narrative_app.py:176-202 | After the blank paragraph that ends the header, every section heading directly follows a blank paragraph, and the body ends with one. |
| Render.DocumentLayout | mep_narrative_app.py:159-202 | The whole document: title heading first, catalog titles as the only section headings in order, each after a blank paragraph, and a final blank paragraph. |
| Render.PreviewBodyLines | mep_narrative_app.py:316-333 | The preview body's section lines (a newline, then "## ") are exactly one per catalog section, with the catalog's titles in catalog order; no intro or bullet line opens a section. This is stated for the list of lines, before they are joined and rendered as Markdown; an intro with "\n## " inside it renders as an extra heading there. |
| Render.PreviewLayout | mep_narrative_app.py:311-333 | The preview starts with its "# " title line, and its section lines are the catalog titles in catalog order. This is stated for the list of lines, before they are joined and rendered as Markdown. |
| Render.CatalogRecordsDecide | mep_narrative_app.py:178-182 | Document body and preview depend only on the records under catalog keys, with a missing record read as `{}`. |
| Render.UnknownSectionsNotRendered | mep_narrative_app.py:178-179 | A record stored under a key outside the catalog changes neither the document nor the preview. |
| Render.MissingSectionIsEmpty | mep_narrative_app.py:179 | A missing section record renders exactly like the empty record. |
| Render.EmptyRecordSection | mep_narrative_app.py:179-202 | An empty record renders as the bare level-2 heading and the blank paragraph, and as the bare "## title" preview line. |
| Render.AddedBulletShown | mep_narrative_app.py:286-288 | Appending a non-blank stripped text shows exactly one more custom bullet, that text, after the ones already shown. |
| Render.DeletedBulletGone | mep_narrative_app.py:296-300 | Deleting entry `idx` removes exactly that entry's bullet from what is shown (nothing if it was blank) and keeps the others in order. |
| Session.NarrativeSession.CatalogSectionHeld | mep_narrative_app.py:256-257 | In a valid session, every catalog section's key has a record, so the editor's lookup `st.session_state.sections[sec.key]` succeeds and the edit handlers' precondition holds. |
| Session.NarrativeSession.InitState | mep_narrative_app.py:117-133 | Seeds each key only if the session lacks it, with the catalog seed and the empty metadata. A second call changes nothing, a fresh session becomes valid, and a valid one stays valid. |
| Session.NarrativeSession.ImportJson | mep_narrative_app.py:147-154 | Leaves the store and the raised exception exactly as `Config.Import` describes: metadata update first, then each incoming section assigned in turn. A valid session stays valid. |
| Session.NarrativeSession.AddCustomBullet | mep_narrative_app.py:286-288 | Blank text changes nothing. A record without a custom list raises and changes nothing. Otherwise the stripped text is appended to that section's list; other sections and the metadata are unchanged. |
| Session.NarrativeSession.ClearCustomBullets | mep_narrative_app.py:291-292 | That section's custom list becomes empty; nothing else changes. |
| Session.NarrativeSession.DeleteCustomBullet | mep_narrative_app.py:295-300 | That section's custom list becomes `RemoveAt(list, idx)`; nothing else changes. |
| Session.NarrativeSession.BuildDocxScript | mep_narrative_app.py:159-202 | The builder calls made equal `Render.DocumentScript` of the catalog and the held metadata and sections. |
| Session.NarrativeSession.PreviewMarkdownLines | mep_narrative_app.py:309-333 | The preview lines equal `Render.PreviewLines` of the catalog and the held metadata and sections. |
| Session.WriteHeader | mep_narrative_app.py:163-176 | The title heading, then the five metadata `if`s (written as one loop over the (key, caption) table, in the source's order), then the blank paragraph, produce exactly `Render.HeaderOps`. |
| Session.WriteSection | mep_narrative_app.py:179-202 | One section loop iteration appends exactly `Render.SectionOps` for that section's record. |
| Session.WriteCatalogBullets | mep_narrative_app.py:190-193 | The toggle loop appends one bullet per ticked catalog bullet, in order. |
| Session.WriteCustomBullets | mep_narrative_app.py:196-200 | The custom loop appends one bullet per non-blank stripped entry, in order. |
| Session.WritePreviewSection | mep_narrative_app.py:317-333 | One preview loop iteration appends exactly `Render.PreviewSection` for that section's record. |
| Session.PreviewCatalogBullets | mep_narrative_app.py:326-328 | The preview's toggle loop appends "- text" per ticked catalog bullet, in order. |
| Session.PreviewCustomBullets | mep_narrative_app.py:330-333 | The preview's custom loop appends "- text" per non-blank stripped entry, in order. |

## Left out

- JSON text encoding (`json.dumps` with `indent=2`, `json.loads`): library code. The model works on what parsing produced: a syntax error, or a candidate whose two keys are each absent, an object, or something else.
- Payload values of the wrong JSON type inside an object are not modelled: non-string metadata values, non-boolean toggles, `null` or non-string custom-bullet entries (the `cb or ""` guard), a list in place of a toggle map. Neither is a top-level value that is not an object. An `"intro": null` reads like a missing intro, which is how the model treats it.
- SectionRecord, Config.ExportImportRoundTrip: a section record holds only `intro`, `bullets` and `custom_bullets`. The source stores an incoming section value as given (line 154) and exports it whole (line 143), so a record with further keys (say `"notes"`) keeps them through save and load. The model has no place for such extra keys, and its round trip is stated for records without them.
- `dict.update` given a non-empty list of key/value pairs instead of an object: a Python library corner not modelled; such a `project_meta` counts as "not an object". An empty string or empty list is modelled (`Config.EmptySequence`): `update` takes it as an empty overlay, so the sections are still merged, while as `sections` it raises for want of `.items()`.
- Text.LowerChar: lower-cases ASCII letters only, where Python's `str.lower` also folds other scripts. For the ".docx" test this is exact: no non-ASCII character lower-cases to anything containing '.', 'd', 'o', 'c' or 'x', so `Text.EndsWithDocx` agrees with `name.lower().endswith(".docx")` on every name.
- Streamlit UI and event wiring: page setup, expanders, columns, buttons and `st.rerun`. The sidebar's five metadata text inputs write into `project_meta` (lines 214-218), and the intro text area and the toggle checkboxes write widget values into the record (lines 261-267, 274-278); those writes are user input, not modelled. Line 289 writes the input widget's session key; not modelled.
- Session.NarrativeSession.AddCustomBullet, ClearCustomBullets, DeleteCustomBullet: require the section key to be held, as the editor's `st.session_state.sections[sec.key]` (line 257) does. The editor also raises earlier on a record without `bullets` (line 274) or `custom_bullets` (line 295). The model does not model that crash; it models only the raise at the append itself.
- python-docx `Document`, the "List Bullet" style and `doc.save` into a byte buffer (lines 160, 192, 204-206): foreign library code. The model stops at the ordered builder calls.
- File upload and download (lines 223-249) and the Markdown rendering of the joined preview (line 335): I/O.
- `BulletItem.label` (field `checkboxLabel` in the model, since `label` is a Dafny keyword) is kept as data; it only captions the editor's checkboxes.
