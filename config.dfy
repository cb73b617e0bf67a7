/**
 * The configuration held by a session: the project metadata and one record
 * per section. This module states what `init_state` seeds, what importing a
 * parsed JSON payload does to the held configuration, and how a section's
 * custom-bullet list is edited.
 */
module Config {
  import opened Wrappers
  import opened Catalog

  /**
   * One section's state, shaped like the JSON object it is saved as. A
   * field is `None` when the record has no such key, which happens after
   * importing a record written by hand or by another catalog version.
   */
  datatype SectionRecord = SectionRecord(
    intro: Option<string>,
    toggles: Option<map<string, bool>>,
    customBullets: Option<seq<string>>)

  /** The record `{}` that the renderer substitutes for a missing section. */
  const EmptyRecord := SectionRecord(None, None, None)

  /** The project metadata and the section records: the unit that is exported and imported. */
  datatype Config = Config(projectMeta: map<string, string>, sections: map<string, SectionRecord>)

  // ---------------------------------------------------------------------------
  // Seeding (init_state)
  // ---------------------------------------------------------------------------

  /** `{b.key: b.default_on for b in bullets}`: a later bullet with the same key wins. */
  function DefaultToggles(bullets: seq<BulletItem>): map<string, bool> {
    if |bullets| == 0 then map[]
    else
      var b := bullets[|bullets| - 1];
      DefaultToggles(bullets[..|bullets| - 1])[b.key := b.defaultOn]
  }

  function BulletKeys(bullets: seq<BulletItem>): set<string> {
    set i | 0 <= i < |bullets| :: bullets[i].key
  }

  /** With distinct bullet keys, the seeded toggles hold exactly one entry per bullet, set to its default. */
  lemma {:induction false} DefaultTogglesSeed(bullets: seq<BulletItem>)
    requires DistinctBulletKeys(bullets)
    ensures DefaultToggles(bullets).Keys == BulletKeys(bullets)
    ensures forall i :: 0 <= i < |bullets| ==> DefaultToggles(bullets)[bullets[i].key] == bullets[i].defaultOn
  {
    if |bullets| > 0 {
      var init := bullets[..|bullets| - 1];
      DefaultTogglesSeed(init);
      assert BulletKeys(bullets) == BulletKeys(init) + {bullets[|bullets| - 1].key} by {
        forall k | k in BulletKeys(bullets) ensures k in BulletKeys(init) + {bullets[|bullets| - 1].key} {
          var i :| 0 <= i < |bullets| && bullets[i].key == k;
          if i < |bullets| - 1 { assert init[i].key == k; }
        }
      }
    }
  }

  /** The record `init_state` seeds for one catalog section. */
  function SeedRecord(spec: SectionSpec): SectionRecord {
    SectionRecord(Some(spec.introDefault), Some(DefaultToggles(spec.bullets)), Some([]))
  }

  /** The `sections` dictionary `init_state` builds by walking the catalog. */
  function InitialSections(cat: seq<SectionSpec>): map<string, SectionRecord> {
    if |cat| == 0 then map[]
    else
      var spec := cat[|cat| - 1];
      InitialSections(cat[..|cat| - 1])[spec.key := SeedRecord(spec)]
  }

  /** With distinct section keys, each catalog section is seeded under its own key and nothing else is. */
  lemma {:induction false} InitialSectionsKeys(cat: seq<SectionSpec>)
    requires WellFormed(cat)
    ensures InitialSections(cat).Keys == SectionKeys(cat)
    ensures forall i :: 0 <= i < |cat| ==> InitialSections(cat)[cat[i].key] == SeedRecord(cat[i])
  {
    if |cat| > 0 {
      var init := cat[..|cat| - 1];
      assert WellFormed(init);
      InitialSectionsKeys(init);
      assert SectionKeys(cat) == SectionKeys(init) + {cat[|cat| - 1].key} by {
        forall k | k in SectionKeys(cat) ensures k in SectionKeys(init) + {cat[|cat| - 1].key} {
          var i :| 0 <= i < |cat| && cat[i].key == k;
          if i < |cat| - 1 { assert init[i].key == k; }
        }
      }
    }
  }

  /**
   * After seeding, the sections are exactly the catalog's, and each holds
   * the section's default intro, one toggle per catalog bullet set to that
   * bullet's default, and an empty custom-bullet list.
   */
  lemma InitialSectionsSeed(cat: seq<SectionSpec>)
    requires WellFormed(cat)
    ensures InitialSections(cat).Keys == SectionKeys(cat)
    ensures forall i :: 0 <= i < |cat| ==>
      var r := InitialSections(cat)[cat[i].key];
      && r.intro == Some(cat[i].introDefault)
      && r.toggles.Some?
      && r.toggles.value.Keys == BulletKeys(cat[i].bullets)
      && (forall j :: 0 <= j < |cat[i].bullets| ==>
            r.toggles.value[cat[i].bullets[j].key] == cat[i].bullets[j].defaultOn)
      && r.customBullets == Some([])
  {
    InitialSectionsKeys(cat);
    forall i | 0 <= i < |cat| {
      DefaultTogglesSeed(cat[i].bullets);
    }
  }

  /** The five metadata keys `init_state` seeds, in the order the document prints them. */
  const META_KEYS: seq<string> := ["project_name", "project_location", "prepared_for", "prepared_by", "date"]

  function InitialMeta(): map<string, string> {
    map["project_name" := "", "project_location" := "", "prepared_for" := "", "prepared_by" := "", "date" := ""]
  }

  /** The seeded metadata has exactly the five keys, all empty. */
  lemma InitialMetaShape()
    ensures InitialMeta().Keys == set k | k in META_KEYS
    ensures |InitialMeta().Keys| == 5
    ensures forall k :: k in InitialMeta() ==> InitialMeta()[k] == ""
  {
    assert InitialMeta().Keys == {"project_name", "project_location", "prepared_for", "prepared_by", "date"};
  }

  // ---------------------------------------------------------------------------
  // Export and import (export_json / import_json)
  // ---------------------------------------------------------------------------

  /**
   * A payload member that should be a JSON object: it is one, or it is an
   * empty sequence (`""` or `[]`, which `dict.update` accepts as an empty
   * overlay but which has no `.items()`), or it is some other JSON value.
   */
  datatype Field<T> = Object(value: T) | EmptySequence | NotObject

  /**
   * A parsed import payload. `projectMeta` and `sections` are `None` when the
   * payload has no such key.
   */
  datatype Candidate = Candidate(
    projectMeta: Option<Field<map<string, string>>>,
    sections: Option<Field<map<string, SectionRecord>>>)

  /** The outcome of `json.loads` on the uploaded text. */
  datatype Parsed = Parsed(candidate: Candidate) | SyntaxError(message: string)

  /** The exception `import_json` lets escape to its caller. */
  datatype ImportError = InvalidJson(message: string) | MetaNotObject | SectionsNotObject

  /** The held configuration after an import, and the exception raised, if any. */
  datatype ImportResult = ImportResult(config: Config, error: Option<ImportError>)

  /**
   * `held` overlaid with `incoming` key by key (`dict.update`, or assigning
   * every incoming entry in a loop): incoming keys take the incoming value,
   * every other held key keeps its value, and nothing is removed.
   */
  function Overlay<V>(held: map<string, V>, incoming: map<string, V>): (r: map<string, V>)
    ensures r.Keys == held.Keys + incoming.Keys
    ensures forall k :: k in incoming ==> r[k] == incoming[k]
    ensures forall k :: k in held && k !in incoming ==> r[k] == held[k]
  {
    held + incoming
  }

  /**
   * `import_json`. A syntax error is raised before anything changes. A
   * `project_meta` that is neither an object nor an empty sequence makes
   * `update` raise before it changes anything; an empty sequence is an
   * empty overlay. Otherwise the metadata is overlaid first; a `sections`
   * that is not an object (an empty sequence included, having no
   * `.items()`) then raises with the new metadata already in place, and a
   * `sections` object replaces each named record outright.
   */
  function Import(held: Config, parsed: Parsed): ImportResult {
    match parsed
    case SyntaxError(message) => ImportResult(held, Some(InvalidJson(message)))
    case Parsed(cand) =>
      if cand.projectMeta == Some(NotObject) then ImportResult(held, Some(MetaNotObject))
      else
        var meta := if cand.projectMeta.Some? && cand.projectMeta.value.Object?
                    then Overlay(held.projectMeta, cand.projectMeta.value.value)
                    else held.projectMeta;
        match cand.sections
        case None => ImportResult(Config(meta, held.sections), None)
        case Some(Object(incoming)) => ImportResult(Config(meta, Overlay(held.sections, incoming)), None)
        case Some(_) => ImportResult(Config(meta, held.sections), Some(SectionsNotObject))
  }

  /** Text that does not parse leaves the held configuration as it was and reports the syntax error. */
  lemma ImportSyntaxErrorUnchanged(held: Config, message: string)
    ensures Import(held, SyntaxError(message)) == ImportResult(held, Some(InvalidJson(message)))
  {
  }

  /**
   * Metadata: every key the payload's `project_meta` holds overwrites the
   * held value, every other held key keeps its value, and no key is lost.
   * Without a `project_meta` key, or with an empty sequence there, the
   * metadata is untouched; any other `project_meta` that is not an object
   * changes nothing at all and raises, and it is the only payload that
   * raises `MetaNotObject`.
   */
  lemma ImportMetadata(held: Config, cand: Candidate)
    ensures var r := Import(held, Parsed(cand)).config;
      && (cand.projectMeta == Some(NotObject) ==> r == held)
      && (Import(held, Parsed(cand)).error == Some(MetaNotObject) <==> cand.projectMeta == Some(NotObject))
      && (cand.projectMeta == None || cand.projectMeta == Some(EmptySequence) ==> r.projectMeta == held.projectMeta)
      && (cand.projectMeta.Some? && cand.projectMeta.value.Object? ==>
            var m := cand.projectMeta.value.value;
            && r.projectMeta.Keys == held.projectMeta.Keys + m.Keys
            && (forall k :: k in m ==> r.projectMeta[k] == m[k])
            && (forall k :: k in held.projectMeta && k !in m ==> r.projectMeta[k] == held.projectMeta[k]))
  {
  }

  /**
   * Sections: when the payload's `sections` is an object, each record it
   * names replaces the held record wholesale, whether or not the key belongs
   * to the catalog, and held sections it does not name are untouched. In
   * every other case the held sections are unchanged; a `sections` that is
   * present but not an object raises. The import raises nothing exactly
   * when `project_meta` is absent, an object or an empty sequence and
   * `sections` is absent or an object.
   */
  lemma ImportSections(held: Config, cand: Candidate)
    ensures var r := Import(held, Parsed(cand)).config;
      && (cand.projectMeta != Some(NotObject) && cand.sections.Some? && cand.sections.value.Object? ==>
            var incoming := cand.sections.value.value;
            && r.sections.Keys == held.sections.Keys + incoming.Keys
            && (forall k :: k in incoming ==> r.sections[k] == incoming[k])
            && (forall k :: k in held.sections && k !in incoming ==> r.sections[k] == held.sections[k]))
      && (cand.projectMeta == Some(NotObject) || cand.sections.None? || !cand.sections.value.Object? ==>
            r.sections == held.sections)
      && (cand.projectMeta != Some(NotObject) && cand.sections.Some? && !cand.sections.value.Object? ==>
            Import(held, Parsed(cand)).error == Some(SectionsNotObject))
      && (Import(held, Parsed(cand)).error == None <==>
            cand.projectMeta != Some(NotObject) && (cand.sections.None? || cand.sections.value.Object?))
  {
  }

  /** A payload with neither key, or with two empty objects, is a no-op. */
  lemma ImportEmptyCandidate(held: Config)
    ensures Import(held, Parsed(Candidate(None, None))) == ImportResult(held, None)
    ensures Import(held, Parsed(Candidate(Some(Object(map[])), Some(Object(map[]))))) == ImportResult(held, None)
  {
    assert Overlay(held.projectMeta, map[]) == held.projectMeta;
    assert Overlay(held.sections, map[]) == held.sections;
  }

  /**
   * The import is not all-or-nothing: a payload whose `project_meta` is an
   * object but whose `sections` is not raises, yet the metadata overlay has
   * already been applied.
   */
  lemma ImportNotAtomic(held: Config, m: map<string, string>)
    ensures Import(held, Parsed(Candidate(Some(Object(m)), Some(NotObject))))
         == ImportResult(Config(Overlay(held.projectMeta, m), held.sections), Some(SectionsNotObject))
  {
  }

  /**
   * `update("")` and `update([])` are no-ops: a payload with an empty string
   * as `project_meta` still has its sections merged, and nothing is raised.
   */
  lemma EmptyMetaSequenceMerges(held: Config, incoming: map<string, SectionRecord>)
    ensures Import(held, Parsed(Candidate(Some(EmptySequence), Some(Object(incoming)))))
         == ImportResult(Config(held.projectMeta, Overlay(held.sections, incoming)), None)
    ensures Import(held, Parsed(Candidate(Some(EmptySequence), Some(EmptySequence))))
         == ImportResult(held, Some(SectionsNotObject))
  {
  }

  /** A concrete case of the partial import: the exception is raised, and the date has changed. */
  lemma PartialImportWitness()
    ensures var held := Config(InitialMeta(), map[]);
      var r := Import(held, Parsed(Candidate(Some(Object(map["date" := "2024-05-01"])), Some(NotObject))));
      && r.error == Some(SectionsNotObject)
      && r.config != held
      && r.config.projectMeta["date"] == "2024-05-01"
  {
    var held := Config(InitialMeta(), map[]);
    var r := Import(held, Parsed(Candidate(Some(Object(map["date" := "2024-05-01"])), Some(NotObject))));
    assert r.config.projectMeta["date"] != held.projectMeta["date"];
  }

  /** Importing the same payload a second time changes nothing more. */
  lemma ImportIdempotent(held: Config, parsed: Parsed)
    ensures var once := Import(held, parsed);
      Import(once.config, parsed) == once
  {
    var once := Import(held, parsed);
    if parsed.Parsed? && parsed.candidate.projectMeta != Some(NotObject) {
      var cand := parsed.candidate;
      if cand.projectMeta.Some? && cand.projectMeta.value.Object? {
        var m := cand.projectMeta.value.value;
        assert Overlay(once.config.projectMeta, m) == once.config.projectMeta;
      }
      if cand.sections.Some? && cand.sections.value.Object? {
        var incoming := cand.sections.value.value;
        assert Overlay(once.config.sections, incoming) == once.config.sections;
      }
    }
  }

  /** `export_json`: the payload `{"project_meta": ..., "sections": ...}` as `json.loads` reads it back. */
  function Export(c: Config): Candidate {
    Candidate(Some(Object(c.projectMeta)), Some(Object(c.sections)))
  }

  /**
   * Save then load: importing a configuration's export into any session
   * whose keys it covers reproduces that configuration exactly (in
   * particular, importing a session's own export is a no-op), and records
   * under keys unknown to the catalog travel through unchanged.
   */
  lemma ExportImportRoundTrip(saved: Config, target: Config)
    requires target.projectMeta.Keys <= saved.projectMeta.Keys
    requires target.sections.Keys <= saved.sections.Keys
    ensures Import(target, Parsed(Export(saved))) == ImportResult(saved, None)
  {
    assert Overlay(target.projectMeta, saved.projectMeta) == saved.projectMeta;
    assert Overlay(target.sections, saved.sections) == saved.sections;
  }

  // ---------------------------------------------------------------------------
  // Custom-bullet list edits
  // ---------------------------------------------------------------------------

  /**
   * `list.pop(idx)`: the element at `idx` is gone, the ones before it keep
   * their positions, the ones after it move up by one, and nothing else is
   * lost or gained.
   */
  function RemoveAt<T>(list: seq<T>, idx: nat): (r: seq<T>)
    requires idx < |list|
    ensures |r| == |list| - 1
    ensures forall i :: 0 <= i < idx ==> r[i] == list[i]
    ensures forall i :: idx <= i < |r| ==> r[i] == list[i + 1]
    ensures multiset(r) + multiset{list[idx]} == multiset(list)
  {
    assert list == list[..idx] + [list[idx]] + list[idx + 1..];
    list[..idx] + list[idx + 1..]
  }
}
