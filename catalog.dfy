/**
 * The static section catalog: the narrative sections, in document order,
 * each with its title, default intro and the standard bullets a user can
 * toggle. The catalog is constant data; everything else is keyed by its
 * section and bullet keys.
 */
module Catalog {

  /** One `BulletItem`: `checkboxLabel` is the source's `label`, renamed because `label` is a keyword here. */
  datatype BulletItem = BulletItem(key: string, checkboxLabel: string, text: string, defaultOn: bool)

  datatype SectionSpec = SectionSpec(key: string, title: string, introDefault: string, bullets: seq<BulletItem>)

  const PROJECT_OVERVIEW: SectionSpec :=
    SectionSpec("project_overview", "Project Overview",
      "Provide a brief description of the project, scope, and overall MEP design intent.",
      [ BulletItem("ov_coord", "Coordination approach", "Coordinate with Architect, Structural, Civil, and Owner/Client team.", true),
        BulletItem("ov_codes", "Code compliance statement", "Design will comply with applicable codes and authority having jurisdiction requirements.", true),
        BulletItem("ov_sustain", "Sustainability / energy goals", "Incorporate energy-efficient strategies consistent with project goals.", false) ])

  const DESIGN_CRITERIA: SectionSpec :=
    SectionSpec("design_criteria", "Design Criteria",
      "Describe basis of design criteria, assumptions, and design constraints.",
      [ BulletItem("dc_loads", "Load assumptions", "Loads based on preliminary architectural program and typical tenant usage.", true),
        BulletItem("dc_coord", "Design coordination", "Ongoing coordination with project stakeholders throughout design phases.", true),
        BulletItem("dc_allow", "Allowances / exclusions", "Specific scope items and exclusions to be confirmed during SD.", false) ])

  const ELECTRICAL: SectionSpec :=
    SectionSpec("electrical", "Electrical Narrative",
      "Summarize electrical systems and design approach.",
      [ BulletItem("el_service", "Utility service", "Confirm utility service requirements and service point location with the serving utility.", true),
        BulletItem("el_distribution", "Distribution concept", "Develop distribution system concept including main distribution, feeders, and panels.", true),
        BulletItem("el_lighting", "Lighting & controls", "Coordinate lighting layout assumptions and controls narrative; comply with energy code.", true),
        BulletItem("el_lifesafety", "Life safety / emergency", "Develop emergency power and life safety systems approach per code and AHJ requirements.", true),
        BulletItem("el_ev", "EV charging", "Coordinate EV charging assumptions and infrastructure requirements.", false) ])

  const PLUMBING: SectionSpec :=
    SectionSpec("plumbing", "Plumbing Narrative",
      "Summarize plumbing systems and design approach.",
      [ BulletItem("pl_sanvent", "Sanitary / vent", "Develop sanitary and vent system concepts including risers and coordination with architectural shafts.", true),
        BulletItem("pl_domestic", "Domestic water", "Develop domestic hot/cold water distribution concepts; coordinate equipment sizing.", true),
        BulletItem("pl_storm", "Storm drainage", "Develop roof and site storm drainage concepts including primary/overflow strategy.", true),
        BulletItem("pl_grease", "Grease waste (if applicable)", "Include grease waste strategy where food service or similar program exists.", false),
        BulletItem("pl_garage", "Garage drainage (if applicable)", "Include garage drainage strategy including collection and discharge approach.", false),
        BulletItem("pl_podium", "Podium coordination (if applicable)", "Include podium storm and coordination tasks if podium is part of project.", false) ])

  const FIRE_PROTECTION: SectionSpec :=
    SectionSpec("fire_protection", "Fire Protection Narrative",
      "Summarize fire protection design approach (if in scope).",
      [ BulletItem("fp_basis", "Basis of design", "Confirm system type and design criteria with applicable code and Owner requirements.", true),
        BulletItem("fp_coord", "Coordination", "Coordinate fire protection routing and impacts with architectural and structural systems.", true),
        BulletItem("fp_hyd", "Hydraulic calculations", "Prepare hydraulic calculations as required for permitting and final design.", false) ])

  const MECHANICAL: SectionSpec :=
    SectionSpec("mechanical", "Mechanical Narrative",
      "Summarize mechanical systems and design approach.",
      [ BulletItem("me_loads", "IES Loads", "Develop loads consistent with energy model / IES assumptions and equipment selections.", true),
        BulletItem("me_oa", "OA Calcs", "Establish outdoor air requirements and ventilation strategy per code.", true),
        BulletItem("me_duct", "Ductwork", "Develop ductwork distribution concepts, sizing, and coordination with structure/ceilings.", true),
        BulletItem("me_ref", "Refrigerant piping", "Develop refrigerant piping routing and coordination where DX systems are used.", false),
        BulletItem("me_smoke", "Smoke control", "Develop smoke control approach where required by code and AHJ.", false),
        BulletItem("me_chw", "Chilled water", "Develop chilled water distribution and equipment concepts where applicable.", false),
        BulletItem("me_cw", "Condenser water", "Develop condenser water distribution and equipment concepts where applicable.", false) ])

  const COORDINATION_DELIVERABLES: SectionSpec :=
    SectionSpec("coordination_deliverables", "Coordination & Deliverables",
      "Summarize deliverables and coordination milestones.",
      [ BulletItem("cd_meetings", "Meetings", "Attend coordination meetings and respond to project communications.", true),
        BulletItem("cd_reviews", "QA/QC", "Perform internal QA/QC reviews at key milestones.", true),
        BulletItem("cd_permit", "Permitting support", "Support permitting/plan review comments and revise documents accordingly.", true) ])

  /** `SECTIONS`: the catalog in document order. */
  const CATALOG: seq<SectionSpec> := [
    PROJECT_OVERVIEW,
    DESIGN_CRITERIA,
    ELECTRICAL,
    PLUMBING,
    FIRE_PROTECTION,
    MECHANICAL,
    COORDINATION_DELIVERABLES
  ]

  /** The keys of a catalog's sections. */
  function SectionKeys(cat: seq<SectionSpec>): set<string> {
    set i | 0 <= i < |cat| :: cat[i].key
  }

  predicate DistinctBulletKeys(bullets: seq<BulletItem>) {
    forall i, j :: 0 <= i < j < |bullets| ==> bullets[i].key != bullets[j].key
  }

  /** No two sections share a key, and within a section no two bullets share a key. */
  predicate WellFormed(cat: seq<SectionSpec>) {
    && (forall i, j :: 0 <= i < j < |cat| ==> cat[i].key != cat[j].key)
    && (forall i :: 0 <= i < |cat| ==> DistinctBulletKeys(cat[i].bullets))
  }

  /** The shipped catalog has seven sections with distinct keys and distinct bullet keys. */
  lemma CatalogWellFormed()
    ensures |CATALOG| == 7
    ensures WellFormed(CATALOG)
  {
    var keys := ["project_overview", "design_criteria", "electrical", "plumbing",
                 "fire_protection", "mechanical", "coordination_deliverables"];
    assert forall i :: 0 <= i < 7 ==> CATALOG[i].key == keys[i];
    assert forall i, j :: 0 <= i < j < 7 ==> keys[i] != keys[j];
    SectionBulletsDistinct();
  }

  lemma SectionBulletsDistinct()
    ensures forall i :: 0 <= i < |CATALOG| ==> DistinctBulletKeys(CATALOG[i].bullets)
  {
    OverviewBulletsDistinct();
    DesignCriteriaBulletsDistinct();
    ElectricalBulletsDistinct();
    PlumbingBulletsDistinct();
    FireProtectionBulletsDistinct();
    MechanicalBulletsDistinct();
    CoordinationBulletsDistinct();
  }

  lemma OverviewBulletsDistinct()
    ensures DistinctBulletKeys(PROJECT_OVERVIEW.bullets)
  {
  }

  lemma DesignCriteriaBulletsDistinct()
    ensures DistinctBulletKeys(DESIGN_CRITERIA.bullets)
  {
  }

  lemma ElectricalBulletsDistinct()
    ensures DistinctBulletKeys(ELECTRICAL.bullets)
  {
  }

  lemma PlumbingBulletsDistinct()
    ensures DistinctBulletKeys(PLUMBING.bullets)
  {
  }

  lemma FireProtectionBulletsDistinct()
    ensures DistinctBulletKeys(FIRE_PROTECTION.bullets)
  {
  }

  lemma MechanicalBulletsDistinct()
    ensures DistinctBulletKeys(MECHANICAL.bullets)
  {
  }

  lemma CoordinationBulletsDistinct()
    ensures DistinctBulletKeys(COORDINATION_DELIVERABLES.bullets)
  {
  }
}
