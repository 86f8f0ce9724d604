/** The data-shaping steps of the leadership report: validation of the analysis
    payload, its projection onto the sections the report shows, the grouping of the
    recruiter's skill scores by focus area, the bottom and top skills, the text and
    description lookups for them, the percentage rule of two gauges and the PDF name. */
module LeadershipReport {
  import opened Common
  import opened Text
  import opened OrderedDict
  import opened PyValue
  import opened Ranking
  import opened SkillText

  /** The focus-area table: each focus area with the names of its skills, in the
      order of the skill table (a name may be listed more than once). */
  type FocusAreas = Dict<string, seq<string>>

  /** `[skill for skills in focus_areas.values() for skill in skills]`. */
  function AllSkills(areas: FocusAreas): (r: seq<string>)
    ensures forall s :: s in r <==> exists i :: 0 <= i < |areas| && s in areas[i].1
  {
    if areas == [] then []
    else
      assert forall i :: 1 <= i < |areas| ==> areas[i] == areas[1..][i - 1];
      areas[0].1 + AllSkills(areas[1..])
  }

  /** One section of the payload the report reads: its key in the payload, its key in
      the parsed data, the fields it must have (and that are copied), and the message
      of the `TypeError` raised when it or one of the fields is missing. */
  datatype Section = Section(payloadKey: string, parsedKey: string, fields: seq<string>, message: string)

  const CandidateSection := Section("Candidate", "candidate_profile", ["name", "company"],
    "candidate profile keys are missing")

  const PaceSection := Section("speech_rate", "pace",
    ["assessment", "timestamp_graph_data", "measured", "inference", "recommended"],
    "pace keys are missing")

  const PauseSection := Section("praat_output", "pause",
    ["average_pause_length", "pauses_count_sentence", "assessment", "articulation_rate",
     "pauses_count_strategic", "pauses_count_sensory", "phonation_time", "speech_rate_syllables",
     "pauses_count_per_min", "pauses_count_long", "inference", "pauses_count_transition"],
    "pause keys are missing")

  const FillerSection := Section("filler_words", "fillers",
    ["assessment", "analysis", "result", "total_words", "recommendation", "data"],
    "filler word keys are missing")

  const RepeatedWordSection := Section("repeated_words", "repeated_words",
    ["assessment", "result", "total_words", "analysis", "data"],
    "repeated word keys are missing")

  const EyeContactSection := Section("looking_at_camera", "eye_contact",
    ["assessment", "average_percentage", "result", "inference", "recommendation", "data"],
    "eye contact keys are missing")

  const SmileSection := Section("smiling", "smile",
    ["assessment", "average_percentage", "result", "inference", "recommendation", "data"],
    "smiling keys are missing")

  const SentimentSection := Section("sentiment", "sentiment",
    ["assessment", "measured", "inference", "recommended"],
    "sentiment keys are missing")

  const VolumeSection := Section("power_db", "volume", ["assessment", "inference", "data"],
    "volume keys are missing")

  /** The measured sections, in the order the validator checks them and the parser
      copies them. */
  const MeasuredSections: seq<Section> := [PaceSection, PauseSection, FillerSection,
    RepeatedWordSection, EyeContactSection, SmileSection, SentimentSection, VolumeSection]

  /** Every checked section, the candidate profile first. */
  const Sections: seq<Section> := [CandidateSection] + MeasuredSections

  const NotADictionary := "Input must be a dictionary"

  // ---------------------------------------------------------------------------------
  // Validation
  // ---------------------------------------------------------------------------------

  predicate IsContainer(v: Value) { v.VDict? || v.VList? || v.VStr? }

  /** `any([x not in section for x in fields])`: the whole list is built first, so a
      section that is not a container raises as soon as there is a field to test. */
  function AnyMissing(fields: seq<string>, section: Value): (r: Result<bool>)
    ensures r.Err? <==> fields != [] && !IsContainer(section)
    ensures r.Ok? ==> (r.value <==> exists i :: 0 <= i < |fields| && In(fields[i], section) == Ok(false))
  {
    if fields == [] then Ok(false)
    else
      match In(fields[0], section)
      case Err(e) => Err(e)
      case Ok(present) =>
        match AnyMissing(fields[1..], section)
        case Err(e) => Err(e)
        case Ok(rest) =>
          assert forall i :: 1 <= i < |fields| ==> fields[i] == fields[1..][i - 1];
          Ok(!present || rest)
  }

  /** The section is in the payload, is a container, and holds every listed field. */
  predicate SectionOk(payload: seq<(Key, Value)>, sec: Section) {
    StrKey(sec.payloadKey) in Keys(payload)
    && IsContainer(Get(payload, StrKey(sec.payloadKey)).value)
    && forall i :: 0 <= i < |sec.fields| ==> In(sec.fields[i], Get(payload, StrKey(sec.payloadKey)).value) == Ok(true)
  }

  /** One `if "<section>" not in payload or any(...)` check. */
  function CheckSection(payload: seq<(Key, Value)>, sec: Section): (o: Outcome)
    requires sec.fields != []
    ensures o == Pass <==> SectionOk(payload, sec)
    ensures StrKey(sec.payloadKey) !in Keys(payload) ==> o == Fail(TypeError(sec.message))
    ensures (StrKey(sec.payloadKey) in Keys(payload) && IsContainer(Get(payload, StrKey(sec.payloadKey)).value)
             && !SectionOk(payload, sec)) ==> o == Fail(TypeError(sec.message))
  {
    if StrKey(sec.payloadKey) !in Keys(payload) then Fail(TypeError(sec.message))
    else
      var section := Get(payload, StrKey(sec.payloadKey)).value;
      match AnyMissing(sec.fields, section)
      case Err(e) => Fail(e)
      case Ok(missing) =>
        if missing then Fail(TypeError(sec.message))
        else
          assert forall i :: 0 <= i < |sec.fields| ==> In(sec.fields[i], section).Ok?;
          Pass
  }

  predicate AllFieldsListed(secs: seq<Section>) {
    forall i :: 0 <= i < |secs| ==> secs[i].fields != []
  }

  /** The checks of `secs` in order: the first that fails decides. */
  function CheckSections(payload: seq<(Key, Value)>, secs: seq<Section>): Outcome
    requires AllFieldsListed(secs)
  {
    if secs == [] then Pass
    else
      match CheckSection(payload, secs[0])
      case Fail(e) => Fail(e)
      case Pass => CheckSections(payload, secs[1..])
  }

  /** The section checks pass exactly when every section is in order, and otherwise
      fail as the first section out of order does. */
  lemma {:induction false} CheckSectionsFirstFailure(payload: seq<(Key, Value)>, secs: seq<Section>)
    requires AllFieldsListed(secs)
    ensures CheckSections(payload, secs) == Pass <==> forall i :: 0 <= i < |secs| ==> SectionOk(payload, secs[i])
    ensures forall i :: (0 <= i < |secs| && !SectionOk(payload, secs[i])
                         && (forall j :: 0 <= j < i ==> SectionOk(payload, secs[j]))) ==>
      CheckSections(payload, secs) == CheckSection(payload, secs[i])
  {
    if secs != [] {
      var rest := secs[1..];
      assert forall i :: 1 <= i < |secs| ==> secs[i] == rest[i - 1];
      CheckSectionsFirstFailure(payload, rest);
      forall i | 0 <= i < |secs| && !SectionOk(payload, secs[i])
        && (forall j :: 0 <= j < i ==> SectionOk(payload, secs[j]))
        ensures CheckSections(payload, secs) == CheckSection(payload, secs[i])
      {
        if i > 0 {
          assert SectionOk(payload, secs[0]);
          assert forall j :: 0 <= j < i - 1 ==> SectionOk(payload, rest[j]);
        }
      }
    }
  }

  /** The first recruiter skill that is not in the skill universe raises. */
  function CheckSkillsKnown(skills: seq<Key>, universe: seq<string>): (o: Outcome)
    ensures o == Pass <==> forall i :: 0 <= i < |skills| ==> skills[i].StrKey? && skills[i].s in universe
  {
    if skills == [] then Pass
    else if !(skills[0].StrKey? && skills[0].s in universe) then
      Fail(TypeError("missing " + KeyText(skills[0]) + " from recruiter skill list"))
    else
      assert forall i :: 1 <= i < |skills| ==> skills[i] == skills[1..][i - 1];
      CheckSkillsKnown(skills[1..], universe)
  }

  /** Scanning the recruiter skills in order, the first unknown one is reported. */
  lemma {:induction false} CheckSkillsKnownFirstUnknown(skills: seq<Key>, universe: seq<string>, i: nat)
    requires i < |skills| && !(skills[i].StrKey? && skills[i].s in universe)
    requires forall j :: 0 <= j < i ==> skills[j].StrKey? && skills[j].s in universe
    ensures CheckSkillsKnown(skills, universe) ==
      Fail(TypeError("missing " + KeyText(skills[i]) + " from recruiter skill list"))
  {
    if i > 0 {
      assert skills[0].StrKey? && skills[0].s in universe;
      CheckSkillsKnownFirstUnknown(skills[1..], universe, i - 1);
    }
  }

  /** The recruiter skills are present, form a dictionary, and every one of them is a
      skill of some focus area. */
  predicate RecruiterSkillsOk(payload: seq<(Key, Value)>, areas: FocusAreas) {
    StrKey("recruiter_skills") in Keys(payload)
    && Get(payload, StrKey("recruiter_skills")).value.VDict?
    && forall k :: k in Keys(Get(payload, StrKey("recruiter_skills")).value.entries) ==>
         k.StrKey? && k.s in AllSkills(areas)
  }

  /** The last check: the recruiter skills must be there (a bare `TypeError` otherwise),
      have `keys`, and all be known. */
  function CheckRecruiterSkills(payload: seq<(Key, Value)>, areas: FocusAreas): (o: Outcome)
    ensures o == Pass <==> RecruiterSkillsOk(payload, areas)
    ensures StrKey("recruiter_skills") !in Keys(payload) ==> o == Fail(TypeError(""))
  {
    if StrKey("recruiter_skills") !in Keys(payload) then Fail(TypeError(""))
    else
      var skills := Get(payload, StrKey("recruiter_skills")).value;
      if !skills.VDict? then Fail(AttributeError("'" + TypeName(skills) + "' object has no attribute 'keys'"))
      else
        var o := CheckSkillsKnown(Keys(skills.entries), AllSkills(areas));
        assert o == Pass <==> forall k :: k in Keys(skills.entries) ==> k.StrKey? && k.s in AllSkills(areas);
        o
  }

  /** `_validate_payload`. */
  function ValidatePayload(payload: Value, areas: FocusAreas): (o: Outcome)
    ensures !payload.VDict? ==> o == Fail(TypeError(NotADictionary))
  {
    if !payload.VDict? then Fail(TypeError(NotADictionary))
    else
      match CheckSections(payload.entries, Sections)
      case Fail(e) => Fail(e)
      case Pass => CheckRecruiterSkills(payload.entries, areas)
  }

  /** A payload passes exactly when it is a dictionary, every section is present with
      all its fields, and every recruiter skill is known. */
  lemma ValidatePayloadPasses(payload: Value, areas: FocusAreas)
    ensures ValidatePayload(payload, areas) == Pass <==>
      payload.VDict?
      && (forall i :: 0 <= i < |Sections| ==> SectionOk(payload.entries, Sections[i]))
      && RecruiterSkillsOk(payload.entries, areas)
  {
    if payload.VDict? {
      CheckSectionsFirstFailure(payload.entries, Sections);
    }
  }

  /** The sections are checked in a fixed order, and the first one that is missing or
      lacks one of its fields raises with that section's message. */
  lemma ValidatePayloadFirstMissingSection(payload: Value, areas: FocusAreas, i: nat)
    requires payload.VDict? && i < |Sections|
    requires forall j :: 0 <= j < i ==> SectionOk(payload.entries, Sections[j])
    requires StrKey(Sections[i].payloadKey) !in Keys(payload.entries)
      || (IsContainer(Get(payload.entries, StrKey(Sections[i].payloadKey)).value) && !SectionOk(payload.entries, Sections[i]))
    ensures ValidatePayload(payload, areas) == Fail(TypeError(Sections[i].message))
  {
    CheckSectionsFirstFailure(payload.entries, Sections);
  }

  /** Once every section is in order, the first recruiter skill outside the focus areas
      raises `missing <skill> from recruiter skill list`. */
  lemma ValidatePayloadUnknownSkill(payload: Value, areas: FocusAreas, i: nat)
    requires payload.VDict?
    requires forall j :: 0 <= j < |Sections| ==> SectionOk(payload.entries, Sections[j])
    requires StrKey("recruiter_skills") in Keys(payload.entries)
    requires Get(payload.entries, StrKey("recruiter_skills")).value.VDict?
    requires i < |Get(payload.entries, StrKey("recruiter_skills")).value.entries|
    requires var skills := Keys(Get(payload.entries, StrKey("recruiter_skills")).value.entries);
      !(skills[i].StrKey? && skills[i].s in AllSkills(areas))
      && forall j :: 0 <= j < i ==> skills[j].StrKey? && skills[j].s in AllSkills(areas)
    ensures ValidatePayload(payload, areas) == Fail(TypeError("missing "
      + KeyText(Keys(Get(payload.entries, StrKey("recruiter_skills")).value.entries)[i])
      + " from recruiter skill list"))
  {
    CheckSectionsFirstFailure(payload.entries, Sections);
    CheckSkillsKnownFirstUnknown(Keys(Get(payload.entries, StrKey("recruiter_skills")).value.entries), AllSkills(areas), i);
  }

  // ---------------------------------------------------------------------------------
  // Parsing
  // ---------------------------------------------------------------------------------

  function StrKeys(names: seq<string>): (ks: seq<Key>)
    ensures |ks| == |names|
    ensures forall i :: 0 <= i < |names| ==> ks[i] == StrKey(names[i])
  {
    seq(|names|, i requires 0 <= i < |names| => StrKey(names[i]))
  }

  /** `{key: section[key] for key in fields}`: the fields are read in order and the
      first one that cannot be read raises. */
  function Project(section: Value, fields: seq<string>): Result<seq<(Key, Value)>>
    decreases |fields|
  {
    if fields == [] then Ok([])
    else
      var init :- Project(section, fields[..|fields| - 1]);
      var v :- Subscript(section, fields[|fields| - 1]);
      Ok(Set(init, StrKey(fields[|fields| - 1]), v))
  }

  /** A projection succeeds exactly when the section is a dictionary holding every
      field, or there is no field to read. */
  lemma {:induction false} ProjectSucceeds(section: Value, fields: seq<string>)
    ensures Project(section, fields).Ok? <==>
      fields == [] || (section.VDict? && forall i :: 0 <= i < |fields| ==> StrKey(fields[i]) in Keys(section.entries))
    decreases |fields|
  {
    if fields != [] {
      var n := |fields| - 1;
      ProjectSucceeds(section, fields[..n]);
      ProjectUnfold(section, fields);
      if section.VDict? {
        PresentSnoc(section, fields, fields[..n]);
      }
    }
  }

  /** One step of a projection: the fields before the last, then the last one. */
  lemma ProjectUnfold(section: Value, fields: seq<string>)
    requires fields != []
    ensures var init := Project(section, fields[..|fields| - 1]);
      var last := Subscript(section, fields[|fields| - 1]);
      Project(section, fields) ==
        if init.Err? then Err(init.error)
        else if last.Err? then Err(last.error)
        else Ok(Set(init.value, StrKey(fields[|fields| - 1]), last.value))
  {
  }

  lemma PresentSnoc(section: Value, fields: seq<string>, init: seq<string>)
    requires fields != [] && section.VDict? && init == fields[..|fields| - 1]
    ensures (forall i :: 0 <= i < |fields| ==> StrKey(fields[i]) in Keys(section.entries)) <==>
      (forall i :: 0 <= i < |init| ==> StrKey(init[i]) in Keys(section.entries))
        && StrKey(fields[|fields| - 1]) in Keys(section.entries)
  {
    assert forall i :: 0 <= i < |init| ==> init[i] == fields[i];
  }

  /** A successful projection holds exactly the listed fields, each with the section's
      value. */
  lemma {:induction false} ProjectContent(section: Value, fields: seq<string>)
    requires Project(section, fields).Ok?
    ensures Keys(Project(section, fields).value) == Unique(StrKeys(fields))
    ensures NoDupKeys(Project(section, fields).value)
    ensures forall i :: 0 <= i < |fields| ==>
      Get(Project(section, fields).value, StrKey(fields[i])) == Get(section.entries, StrKey(fields[i]))
    decreases |fields|
  {
    if fields != [] {
      var init := fields[..|fields| - 1];
      ProjectUnfold(section, fields);
      ProjectContent(section, init);
      ProjectContentStep(section, fields, init, Project(section, init).value,
                         Subscript(section, fields[|fields| - 1]).value);
    }
  }

  /** The last field set on a projection of the others. */
  lemma ProjectContentStep(section: Value, fields: seq<string>, init: seq<string>, d: seq<(Key, Value)>, v: Value)
    requires fields != [] && init == fields[..|fields| - 1]
    requires Subscript(section, fields[|fields| - 1]) == Ok(v)
    requires Keys(d) == Unique(StrKeys(init)) && NoDupKeys(d)
    requires forall i :: 0 <= i < |init| ==> Get(d, StrKey(init[i])) == Get(section.entries, StrKey(init[i]))
    ensures Keys(Set(d, StrKey(fields[|fields| - 1]), v)) == Unique(StrKeys(fields))
    ensures NoDupKeys(Set(d, StrKey(fields[|fields| - 1]), v))
    ensures forall i :: 0 <= i < |fields| ==>
      Get(Set(d, StrKey(fields[|fields| - 1]), v), StrKey(fields[i])) == Get(section.entries, StrKey(fields[i]))
  {
    var n := |fields| - 1;
    StrKeysSnoc(fields, init);
    SetKeysUnique(d, StrKeys(init), StrKey(fields[n]), v);
    assert forall i :: 0 <= i < n ==> init[i] == fields[i];
    ProjectValueStep(section, fields, d, v);
    GetSet(d, StrKey(fields[n]), v, StrKey(fields[n]));
  }

  /** Setting `k` on a dictionary keyed by `Unique(s)` keys it by `Unique(s + [k])`. */
  lemma SetKeysUnique<K(!new), V>(d: Dict<K, V>, s: seq<K>, k: K, v: V)
    requires Keys(d) == Unique(s)
    ensures Keys(Set(d, k, v)) == Unique(s + [k])
  {
    UniqueAppend(s, k);
  }

  lemma StrKeysSnoc(fields: seq<string>, init: seq<string>)
    requires fields != [] && init == fields[..|fields| - 1]
    ensures StrKeys(fields) == StrKeys(init) + [StrKey(fields[|fields| - 1])]
  {
  }

  lemma ProjectValueStep(section: Value, fields: seq<string>, d: seq<(Key, Value)>, v: Value)
    requires fields != [] && NoDupKeys(d)
    requires Subscript(section, fields[|fields| - 1]) == Ok(v)
    requires forall i :: 0 <= i < |fields| - 1 ==> Get(d, StrKey(fields[i])) == Get(section.entries, StrKey(fields[i]))
    ensures forall i :: 0 <= i < |fields| ==>
      Get(Set(d, StrKey(fields[|fields| - 1]), v), StrKey(fields[i])) == Get(section.entries, StrKey(fields[i]))
  {
    var n := |fields| - 1;
    forall i | 0 <= i < |fields|
      ensures Get(Set(d, StrKey(fields[n]), v), StrKey(fields[i])) == Get(section.entries, StrKey(fields[i]))
    {
      GetSet(d, StrKey(fields[n]), v, StrKey(fields[i]));
    }
  }

  /** A projection that raises, raises as reading the first unreadable field does. */
  lemma {:induction false} ProjectFirstFailure(section: Value, fields: seq<string>, i: nat)
    requires i < |fields| && Subscript(section, fields[i]).Err?
    requires forall j :: 0 <= j < i ==> Subscript(section, fields[j]).Ok?
    ensures Project(section, fields) == Err(Subscript(section, fields[i]).error)
    decreases |fields|
  {
    var n := |fields| - 1;
    var init := fields[..n];
    if i < n {
      ReadablePrefix(section, fields, init, i);
      ProjectFirstFailure(section, init, i);
      ProjectFailsEarly(section, fields, init);
    } else {
      ProjectReadable(section, fields, init);
      ProjectFailsLast(section, fields, init);
    }
  }

  lemma ReadablePrefix(section: Value, fields: seq<string>, init: seq<string>, i: nat)
    requires fields != [] && init == fields[..|fields| - 1] && i < |init|
    requires Subscript(section, fields[i]).Err?
    requires forall j :: 0 <= j < i ==> Subscript(section, fields[j]).Ok?
    ensures Subscript(section, init[i]).Err?
    ensures forall j :: 0 <= j < i ==> Subscript(section, init[j]).Ok?
  {
    assert forall j :: 0 <= j <= i ==> init[j] == fields[j];
  }

  lemma ProjectFailsEarly(section: Value, fields: seq<string>, init: seq<string>)
    requires fields != [] && init == fields[..|fields| - 1] && Project(section, init).Err?
    ensures Project(section, fields) == Err(Project(section, init).error)
  {
    ProjectUnfold(section, fields);
  }

  lemma ProjectFailsLast(section: Value, fields: seq<string>, init: seq<string>)
    requires fields != [] && init == fields[..|fields| - 1] && Project(section, init).Ok?
    requires Subscript(section, fields[|fields| - 1]).Err?
    ensures Project(section, fields) == Err(Subscript(section, fields[|fields| - 1]).error)
  {
    ProjectUnfold(section, fields);
  }

  /** The fields before the last one can all be read, so their projection succeeds. */
  lemma ProjectReadable(section: Value, fields: seq<string>, init: seq<string>)
    requires fields != [] && init == fields[..|fields| - 1]
    requires forall j :: 0 <= j < |fields| - 1 ==> Subscript(section, fields[j]).Ok?
    ensures Project(section, init).Ok?
  {
    ProjectSucceeds(section, init);
    if init != [] {
      assert Subscript(section, fields[0]).Ok?;
      forall j | 0 <= j < |init| ensures StrKey(init[j]) in Keys(section.entries) {
        assert init[j] == fields[j];
        assert Subscript(section, fields[j]).Ok?;
      }
    }
  }

  /** `payload["Candidate"]` after `["name"] = ["name"]` and `["company_name"] =
      ["company"]`: the name is read before the company. */
  function CandidateProfile(payload: seq<(Key, Value)>): Result<seq<(Key, Value)>>
  {
    var candidate :- Subscript(VDict(payload), "Candidate");
    var name :- Subscript(candidate, "name");
    var renamed := Set(candidate.entries, StrKey("name"), name);
    var company :- Subscript(VDict(renamed), "company");
    Ok(Set(renamed, StrKey("company_name"), company))
  }

  /** The profile is the candidate's own dictionary with `company_name` set to its
      `company`; reading a missing `name` or `company` raises `KeyError`. */
  lemma CandidateProfileFields(payload: seq<(Key, Value)>, k: Key)
    requires StrKey("Candidate") in Keys(payload)
    requires var c := Get(payload, StrKey("Candidate")).value; c.VDict? && NoDupKeys(c.entries)
    ensures var c := Get(payload, StrKey("Candidate")).value;
      && (CandidateProfile(payload).Ok? <==> StrKey("name") in Keys(c.entries) && StrKey("company") in Keys(c.entries))
      && (StrKey("name") !in Keys(c.entries) ==> CandidateProfile(payload) == Err(KeyError("name")))
      && (StrKey("name") in Keys(c.entries) && StrKey("company") !in Keys(c.entries) ==>
            CandidateProfile(payload) == Err(KeyError("company")))
      && (CandidateProfile(payload).Ok? ==>
            NoDupKeys(CandidateProfile(payload).value)
            && Get(CandidateProfile(payload).value, StrKey("company_name")) == Get(c.entries, StrKey("company"))
            && (k != StrKey("company_name") ==> Get(CandidateProfile(payload).value, k) == Get(c.entries, k)))
  {
    var c := Get(payload, StrKey("Candidate")).value;
    if StrKey("name") in Keys(c.entries) {
      var name := Get(c.entries, StrKey("name")).value;
      SetStored(c.entries, StrKey("name"), name);
      if StrKey("company") in Keys(c.entries) {
        var company := Get(c.entries, StrKey("company")).value;
        GetSet(c.entries, StrKey("company_name"), company, k);
        GetSet(c.entries, StrKey("company_name"), company, StrKey("company_name"));
      }
    }
  }

  /** The measured sections copied in order, each under its parsed name. */
  function ProjectSections(payload: seq<(Key, Value)>, secs: seq<Section>): Result<Dict<string, seq<(Key, Value)>>>
    decreases |secs|
  {
    if secs == [] then Ok([])
    else
      var init :- ProjectSections(payload, secs[..|secs| - 1]);
      var sec := secs[|secs| - 1];
      var section :- Subscript(VDict(payload), sec.payloadKey);
      var projected :- Project(section, sec.fields);
      Ok(Set(init, sec.parsedKey, projected))
  }

  /** Every section is copied under its parsed name, as the projection of the payload
      section onto its fields. */
  lemma {:induction false} ProjectSectionsContent(payload: seq<(Key, Value)>, secs: seq<Section>, i: nat)
    requires ProjectSections(payload, secs).Ok? && i < |secs|
    requires forall j, k :: 0 <= j < k < |secs| ==> secs[j].parsedKey != secs[k].parsedKey
    ensures NoDupKeys(ProjectSections(payload, secs).value)
    ensures Subscript(VDict(payload), secs[i].payloadKey).Ok?
    ensures Project(Subscript(VDict(payload), secs[i].payloadKey).value, secs[i].fields).Ok?
    ensures Get(ProjectSections(payload, secs).value, secs[i].parsedKey) ==
      Some(Project(Subscript(VDict(payload), secs[i].payloadKey).value, secs[i].fields).value)
    decreases |secs|
  {
    var n := |secs| - 1;
    var init := secs[..n];
    ProjectSectionsLast(payload, secs);
    PrefixDistinct(secs, n);
    if i < n {
      ProjectSectionsContent(payload, init, i);
      ContentBeforeLast(payload, secs, init, i);
    } else {
      if n > 0 {
        assert ProjectSections(payload, init).Ok? && 0 < |init|;
        assert forall j, k :: 0 <= j < k < |init| ==> init[j].parsedKey != init[k].parsedKey;
        ProjectSectionsContent(payload, init, 0);
      }
      ContentOfLast(payload, secs, init, i);
    }
  }

  /** A section before the last keeps what the shorter copy gave it. */
  lemma ContentBeforeLast(payload: seq<(Key, Value)>, secs: seq<Section>, init: seq<Section>, i: nat)
    requires secs != [] && init == secs[..|secs| - 1] && i < |init|
    requires ProjectSections(payload, secs).Ok?
    requires forall j, k :: 0 <= j < k < |secs| ==> secs[j].parsedKey != secs[k].parsedKey
    requires ProjectSections(payload, init).Ok?
    requires NoDupKeys(ProjectSections(payload, init).value)
    requires Subscript(VDict(payload), init[i].payloadKey).Ok?
    requires Project(Subscript(VDict(payload), init[i].payloadKey).value, init[i].fields).Ok?
    requires Get(ProjectSections(payload, init).value, init[i].parsedKey) ==
      Some(Project(Subscript(VDict(payload), init[i].payloadKey).value, init[i].fields).value)
    ensures NoDupKeys(ProjectSections(payload, secs).value)
    ensures Subscript(VDict(payload), secs[i].payloadKey).Ok?
    ensures Project(Subscript(VDict(payload), secs[i].payloadKey).value, secs[i].fields).Ok?
    ensures Get(ProjectSections(payload, secs).value, secs[i].parsedKey) ==
      Some(Project(Subscript(VDict(payload), secs[i].payloadKey).value, secs[i].fields).value)
  {
    var n := |secs| - 1;
    ProjectSectionsLast(payload, secs);
    var before := ProjectSections(payload, init).value;
    var projected := Project(Subscript(VDict(payload), secs[n].payloadKey).value, secs[n].fields).value;
    assert init[i] == secs[i];
    GetSet(before, secs[n].parsedKey, projected, secs[i].parsedKey);
  }

  /** The last section is set last, under its own name. */
  lemma ContentOfLast(payload: seq<(Key, Value)>, secs: seq<Section>, init: seq<Section>, i: nat)
    requires secs != [] && init == secs[..|secs| - 1] && i == |secs| - 1
    requires ProjectSections(payload, secs).Ok?
    requires ProjectSections(payload, init).Ok?
    requires NoDupKeys(ProjectSections(payload, init).value)
    ensures NoDupKeys(ProjectSections(payload, secs).value)
    ensures Subscript(VDict(payload), secs[i].payloadKey).Ok?
    ensures Project(Subscript(VDict(payload), secs[i].payloadKey).value, secs[i].fields).Ok?
    ensures Get(ProjectSections(payload, secs).value, secs[i].parsedKey) ==
      Some(Project(Subscript(VDict(payload), secs[i].payloadKey).value, secs[i].fields).value)
  {
    var n := |secs| - 1;
    ProjectSectionsLast(payload, secs);
    var before := ProjectSections(payload, init).value;
    var projected := Project(Subscript(VDict(payload), secs[n].payloadKey).value, secs[n].fields).value;
    GetSet(before, secs[n].parsedKey, projected, secs[n].parsedKey);
  }

  lemma PrefixDistinct(secs: seq<Section>, n: nat)
    requires n <= |secs|
    requires forall j, k :: 0 <= j < k < |secs| ==> secs[j].parsedKey != secs[k].parsedKey
    ensures forall j, k :: 0 <= j < k < n ==> secs[..n][j].parsedKey != secs[..n][k].parsedKey
  {
    assert forall j :: 0 <= j < n ==> secs[..n][j] == secs[j];
  }

  /** The last section of a successful copy was read and projected, and is set last. */
  lemma ProjectSectionsLast(payload: seq<(Key, Value)>, secs: seq<Section>)
    requires secs != [] && ProjectSections(payload, secs).Ok?
    ensures ProjectSections(payload, secs[..|secs| - 1]).Ok?
    ensures Subscript(VDict(payload), secs[|secs| - 1].payloadKey).Ok?
    ensures Project(Subscript(VDict(payload), secs[|secs| - 1].payloadKey).value, secs[|secs| - 1].fields).Ok?
    ensures ProjectSections(payload, secs).value ==
      Set(ProjectSections(payload, secs[..|secs| - 1]).value, secs[|secs| - 1].parsedKey,
          Project(Subscript(VDict(payload), secs[|secs| - 1].payloadKey).value, secs[|secs| - 1].fields).value)
  {
  }

  /** `payload["recruiter_skills"].keys()`, read afresh for every skill. */
  function RecruiterSkills(payload: seq<(Key, Value)>): (r: Result<seq<(Key, Value)>>)
    ensures r.Ok? <==> StrKey("recruiter_skills") in Keys(payload) && Get(payload, StrKey("recruiter_skills")).value.VDict?
    ensures r.Ok? ==> r.value == Get(payload, StrKey("recruiter_skills")).value.entries
  {
    var skills :- Subscript(VDict(payload), "recruiter_skills");
    if skills.VDict? then Ok(skills.entries)
    else Err(AttributeError("'" + TypeName(skills) + "' object has no attribute 'keys'"))
  }

  /** The names of `order` that are keys of `scores`, in the order of `order`. */
  function Present(order: seq<string>, scores: seq<(Key, Value)>): (r: seq<string>)
    ensures forall s :: s in r <==> s in order && StrKey(s) in Keys(scores)
    decreases |order|
  {
    if order == [] then []
    else
      var init := order[..|order| - 1];
      var last := order[|order| - 1];
      assert forall s :: s in order <==> s in init || s == last;
      Present(init, scores) + (if StrKey(last) in Keys(scores) then [last] else [])
  }

  /** What `_parse_payload` returns. */
  datatype LeadershipData = LeadershipData(
    candidateProfile: seq<(Key, Value)>,
    sections: Dict<string, seq<(Key, Value)>>,
    skills: Dict<string, Value>)

  /** `_parse_payload`. The candidate profile is the payload's own `Candidate`
      dictionary, so adding `company_name` to it changes the caller's payload too,
      and that change stays made whatever raises afterwards. The skills are looked up
      in `order`, the enumeration order of the set of all focus-area skills. */
  method ParsePayload(payload: DictObject, areas: FocusAreas, order: seq<string>) returns (r: Result<LeadershipData>)
    requires NoDup(order) && forall s :: s in order <==> s in AllSkills(areas)
    modifies payload
    ensures CandidateProfile(old(payload.entries)).Err? ==>
      r == Err(CandidateProfile(old(payload.entries)).error) && payload.entries == old(payload.entries)
    ensures CandidateProfile(old(payload.entries)).Ok? ==>
      payload.entries == Set(old(payload.entries), StrKey("Candidate"), VDict(CandidateProfile(old(payload.entries)).value))
    ensures (CandidateProfile(old(payload.entries)).Ok? && ProjectSections(payload.entries, MeasuredSections).Err?) ==>
      r == Err(ProjectSections(payload.entries, MeasuredSections).error)
    ensures (CandidateProfile(old(payload.entries)).Ok? && ProjectSections(payload.entries, MeasuredSections).Ok?
             && order != [] && RecruiterSkills(payload.entries).Err?) ==>
      r == Err(RecruiterSkills(payload.entries).error)
    ensures r.Ok? <==>
      && CandidateProfile(old(payload.entries)).Ok?
      && ProjectSections(payload.entries, MeasuredSections).Ok?
      && (order == [] || RecruiterSkills(payload.entries).Ok?)
    ensures r.Ok? ==>
      && r.value.candidateProfile == CandidateProfile(old(payload.entries)).value
      && r.value.sections == ProjectSections(payload.entries, MeasuredSections).value
    ensures r.Ok? && order == [] ==> r.value.skills == []
    ensures r.Ok? && order != [] ==>
      && RecruiterSkills(payload.entries).Ok?
      && Keys(r.value.skills) == Present(order, RecruiterSkills(payload.entries).value)
      && NoDupKeys(r.value.skills)
      && forall s :: s in Keys(r.value.skills) ==>
           Get(r.value.skills, s) == Get(RecruiterSkills(payload.entries).value, StrKey(s))
  {
    var profile := CandidateProfile(payload.entries);
    if profile.Err? {
      return Err(profile.error);
    }
    payload.entries := Set(payload.entries, StrKey("Candidate"), VDict(profile.value));
    var sections := ProjectSections(payload.entries, MeasuredSections);
    if sections.Err? {
      return Err(sections.error);
    }
    var skills :- SkillScores(payload.entries, order);
    return Ok(LeadershipData(profile.value, sections.value, skills));
  }

  /** The skill loop of `_parse_payload`: `payload["recruiter_skills"]` is read again
      for every enumerated skill, and a skill it scores is stored with its score. */
  method SkillScores(parsed: seq<(Key, Value)>, order: seq<string>) returns (r: Result<Dict<string, Value>>)
    requires NoDup(order)
    ensures r.Err? <==> order != [] && RecruiterSkills(parsed).Err?
    ensures r.Err? ==> r.error == RecruiterSkills(parsed).error
    ensures r.Ok? && order == [] ==> r.value == []
    ensures r.Ok? && order != [] ==>
      && Keys(r.value) == Present(order, RecruiterSkills(parsed).value)
      && NoDupKeys(r.value)
      && forall s :: s in Keys(r.value) ==> Get(r.value, s) == Get(RecruiterSkills(parsed).value, StrKey(s))
  {
    ghost var rec := if RecruiterSkills(parsed).Ok? then RecruiterSkills(parsed).value else [];
    var skills: Dict<string, Value> := [];
    var i := 0;
    assert Present(order[..0], rec) == [] by {
      assert order[..0] == [];
    }
    while i < |order|
      invariant 0 <= i <= |order|
      invariant i > 0 ==> RecruiterSkills(parsed).Ok?
      invariant Keys(skills) == Present(order[..i], rec)
      invariant NoDupKeys(skills)
      invariant forall s :: s in Keys(skills) ==> Get(skills, s) == Get(rec, StrKey(s))
    {
      var recruiter := RecruiterSkills(parsed);
      if recruiter.Err? {
        return Err(recruiter.error);
      }
      var skill := order[i];
      assert recruiter.value == rec;
      SkillStep(order, i, skills, rec);
      if StrKey(skill) in Keys(recruiter.value) {
        skills := Set(skills, skill, Get(recruiter.value, StrKey(skill)).value);
      }
      i := i + 1;
    }
    assert order[..i] == order;
    return Ok(skills);
  }

  /** One step of the skill loop: a listed skill the recruiter scored is appended with
      its score, any other is passed over. */
  lemma SkillStep(order: seq<string>, i: nat, skills: Dict<string, Value>, rec: seq<(Key, Value)>)
    requires NoDup(order) && i < |order|
    requires Keys(skills) == Present(order[..i], rec) && NoDupKeys(skills)
    requires forall s :: s in Keys(skills) ==> Get(skills, s) == Get(rec, StrKey(s))
    ensures var next := if StrKey(order[i]) in Keys(rec) then Set(skills, order[i], Get(rec, StrKey(order[i])).value) else skills;
      && Keys(next) == Present(order[..i + 1], rec)
      && NoDupKeys(next)
      && forall s :: s in Keys(next) ==> Get(next, s) == Get(rec, StrKey(s))
  {
    var skill := order[i];
    assert order[..i + 1][..i] == order[..i] && order[..i + 1][i] == skill;
    if StrKey(skill) in Keys(rec) {
      var score := Get(rec, StrKey(skill)).value;
      assert skill !in Keys(skills) by {
        if skill in Keys(skills) {
          assert false;
        }
      }
      forall s | s in Keys(Set(skills, skill, score))
        ensures Get(Set(skills, skill, score), s) == Get(rec, StrKey(s))
      {
        GetSet(skills, skill, score, s);
      }
      GetSet(skills, skill, score, skill);
    }
  }

  // Grouping the scores by focus area

  /** The scores of the skills listed in `skills`, in the order of `scores`. */
  function InArea(scores: Dict<string, Value>, skills: seq<string>): (r: Dict<string, Value>)
    ensures forall e :: e in r <==> e in scores && e.0 in skills
    ensures |r| <= |scores|
    decreases |scores|
  {
    if scores == [] then []
    else
      var init := scores[..|scores| - 1];
      var last := scores[|scores| - 1];
      assert forall e :: e in scores <==> e in init || e == last;
      InArea(init, skills) + (if last.0 in skills then [last] else [])
  }

  /** `{key: {} for key in dict_focus_area.keys()}`. */
  function EmptyBuckets<V>(areas: FocusAreas): (r: Dict<string, Dict<string, V>>)
    ensures Keys(r) == Keys(areas)
    ensures forall j :: 0 <= j < |r| ==> r[j].1 == []
  {
    seq(|areas|, j requires 0 <= j < |areas| => (areas[j].0, []))
  }

  /** Storing the next score into a bucket that lists its skill appends it: the scores
      have distinct skills, so the skill is not in the bucket yet. */
  lemma BucketStep(scores: Dict<string, Value>, i: nat, skills: seq<string>)
    requires NoDupKeys(scores) && i < |scores|
    ensures InArea(scores[..i + 1], skills) ==
      if scores[i].0 in skills then Set(InArea(scores[..i], skills), scores[i].0, scores[i].1)
      else InArea(scores[..i], skills)
  {
    var p := scores[..i + 1];
    var d := InArea(scores[..i], skills);
    assert p[..|p| - 1] == scores[..i];
    assert p[|p| - 1] == scores[i];
    assert InArea(p, skills) == d + (if scores[i].0 in skills then [scores[i]] else []);
    if scores[i].0 in skills {
      assert scores[i].0 !in Keys(d) by {
        forall k | 0 <= k < |d| ensures Keys(d)[k] != scores[i].0 {
          assert d[k] in scores[..i];
          var m :| 0 <= m < i && scores[..i][m] == d[k];
          assert Keys(scores)[m] == d[k].0 && Keys(scores)[i] == scores[i].0;
        }
      }
    }
  }

  /** The score `i` filed in bucket `j`, where the area lists its skill. */
  lemma AreaStep(scores: Dict<string, Value>, areas: FocusAreas, i: nat, j: nat,
                 buckets: Dict<string, Dict<string, Value>>, next: Dict<string, Dict<string, Value>>)
    requires NoDupKeys(scores) && i < |scores| && j < |areas|
    requires Keys(buckets) == Keys(areas)
    requires forall k :: 0 <= k < j ==> buckets[k].1 == InArea(scores[..i + 1], areas[k].1)
    requires forall k :: j <= k < |areas| ==> buckets[k].1 == InArea(scores[..i], areas[k].1)
    requires next == if scores[i].0 in areas[j].1
      then buckets[j := (buckets[j].0, Set(buckets[j].1, scores[i].0, scores[i].1))] else buckets
    ensures Keys(next) == Keys(areas)
    ensures forall k :: 0 <= k < j + 1 ==> next[k].1 == InArea(scores[..i + 1], areas[k].1)
    ensures forall k :: j + 1 <= k < |areas| ==> next[k].1 == InArea(scores[..i], areas[k].1)
  {
    BucketStep(scores, i, areas[j].1);
    assert next[j].1 == InArea(scores[..i + 1], areas[j].1);
    assert forall k :: 0 <= k < |next| && k != j ==> next[k] == buckets[k];
    KeysOfRenamed(buckets, next, j);
  }

  /** Replacing the value at one position keeps the keys. */
  lemma KeysOfRenamed(buckets: Dict<string, Dict<string, Value>>, next: Dict<string, Dict<string, Value>>, j: nat)
    requires |next| == |buckets| && j < |buckets| && next[j].0 == buckets[j].0
    requires forall k :: 0 <= k < |next| && k != j ==> next[k] == buckets[k]
    ensures Keys(next) == Keys(buckets)
  {
    assert forall k :: 0 <= k < |next| ==> Keys(next)[k] == Keys(buckets)[k];
  }

  /** `_modify_scores`: every focus area becomes a key, in the order of the focus-area
      table, and holds the scores of its listed skills in the order of `scores`,
      unchanged; a skill is stored under every focus area that lists it and under none
      that does not. The scores are a dictionary, so their skills are distinct. The
      bucket of a focus area is found by position, which is where its key is. */
  method ModifyScores(scores: Dict<string, Value>, areas: FocusAreas) returns (buckets: Dict<string, Dict<string, Value>>)
    requires NoDupKeys(scores)
    ensures Keys(buckets) == Keys(areas)
    ensures forall j :: 0 <= j < |areas| ==> buckets[j].1 == InArea(scores, areas[j].1)
  {
    buckets := EmptyBuckets(areas);
    var i := 0;
    while i < |scores|
      invariant 0 <= i <= |scores|
      invariant Keys(buckets) == Keys(areas)
      invariant forall j :: 0 <= j < |areas| ==> buckets[j].1 == InArea(scores[..i], areas[j].1)
    {
      var (skill, score) := scores[i];
      var j := 0;
      while j < |areas|
        invariant 0 <= j <= |areas|
        invariant Keys(buckets) == Keys(areas)
        invariant forall k :: 0 <= k < j ==> buckets[k].1 == InArea(scores[..i + 1], areas[k].1)
        invariant forall k :: j <= k < |areas| ==> buckets[k].1 == InArea(scores[..i], areas[k].1)
      {
        ghost var was := buckets;
        if skill in areas[j].1 {
          buckets := buckets[j := (buckets[j].0, Set(buckets[j].1, skill, score))];
        }
        AreaStep(scores, areas, i, j, was, buckets);
        j := j + 1;
      }
      i := i + 1;
    }
    assert scores[..i] == scores;
  }

  /** A score is filed under a focus area exactly when that area lists its skill, so
      the skills no focus area lists are dropped. */
  lemma BucketsHoldListedScores(scores: Dict<string, Value>, areas: FocusAreas, buckets: Dict<string, Dict<string, Value>>, e: (string, Value))
    requires Keys(buckets) == Keys(areas)
    requires forall j :: 0 <= j < |areas| ==> buckets[j].1 == InArea(scores, areas[j].1)
    ensures (exists j :: 0 <= j < |buckets| && e in buckets[j].1) <==> e in scores && e.0 in AllSkills(areas)
  {
    if e in scores && e.0 in AllSkills(areas) {
      var j :| 0 <= j < |areas| && e.0 in areas[j].1;
      assert e in buckets[j].1;
    }
  }

  // The bottom and top skills

  /** The concatenation of the sequences of `ss`, in order. */
  function Concat<T(!new)>(ss: seq<seq<T>>): (r: seq<T>)
    ensures forall x :: x in r <==> exists i :: 0 <= i < |ss| && x in ss[i]
    decreases |ss|
  {
    if ss == [] then []
    else
      var init := ss[..|ss| - 1];
      assert forall i :: 0 <= i < |init| ==> init[i] == ss[i];
      Concat(init) + ss[|ss| - 1]
  }

  /** The loop of `_get_bottom_and_top_skills` that lists the (skill, score) pairs of
      all buckets, bucket by bucket. */
  method FlattenScores(buckets: Dict<string, Dict<string, Value>>) returns (flat: seq<(string, Value)>)
    ensures flat == Concat(Values(buckets))
  {
    flat := [];
    var i := 0;
    while i < |buckets|
      invariant 0 <= i <= |buckets|
      invariant flat == Concat(Values(buckets)[..i])
    {
      var bucket := buckets[i].1;
      var j := 0;
      while j < |bucket|
        invariant 0 <= j <= |bucket|
        invariant flat == Concat(Values(buckets)[..i]) + bucket[..j]
      {
        flat := flat + [bucket[j]];
        assert bucket[..j + 1] == bucket[..j] + [bucket[j]];
        j := j + 1;
      }
      assert bucket[..j] == bucket;
      assert Values(buckets)[..i + 1][..i] == Values(buckets)[..i];
      i := i + 1;
    }
    assert Values(buckets)[..i] == Values(buckets);
  }

  /** The pairs with their scores as numbers; a non-numeric score cannot be sorted or
      compared with a threshold and raises `TypeError`. */
  function NumericScores(pairs: seq<(string, Value)>): (r: Result<seq<Entry>>)
    ensures r.Ok? <==> forall i :: 0 <= i < |pairs| ==> IsNumber(pairs[i].1)
    ensures r.Err? ==> r.error == TypeError("scores must be numbers")
    ensures r.Ok? ==> |r.value| == |pairs|
    ensures r.Ok? ==> forall i :: 0 <= i < |pairs| ==> r.value[i] == (pairs[i].0, AsReal(pairs[i].1))
  {
    if exists i :: 0 <= i < |pairs| && !IsNumber(pairs[i].1) then
      Err(TypeError("scores must be numbers"))
    else
      Ok(seq(|pairs|, i requires 0 <= i < |pairs| => (pairs[i].0, AsReal(pairs[i].1))))
  }

  /** `[x for x in sorted(pairs, key=score)[:3] if x[1] < 7]`. */
  function BottomPicks(s: seq<Entry>): seq<Entry> {
    Below(Take(SortAsc(s), 3), 7.0)
  }

  /** `[x for x in sorted(pairs, key=score)[-3:] if x[1] > 5]`. */
  function TopPicks(s: seq<Entry>): seq<Entry> {
    Above(TakeLast(SortAsc(s), 3), 5.0)
  }

  /** Both lists hold at most three entries of `s`, bottom ones below 7 and top ones
      above 5. */
  lemma PicksBounded(s: seq<Entry>)
    ensures |BottomPicks(s)| <= 3 && |TopPicks(s)| <= 3
    ensures forall e :: e in BottomPicks(s) ==> e in s && e.1 < 7.0
    ensures forall e :: e in TopPicks(s) ==> e in s && e.1 > 5.0
  {
    var t := SortAsc(s);
    SortAscCorrect(s);
    forall e | e in TakeLast(t, 3) ensures e in s {
      assert e in multiset(t);
    }
    forall e | e in Take(t, 3) ensures e in s {
      assert e in multiset(t);
    }
  }

  /** Both lists are in ascending order of score. */
  lemma PicksSorted(s: seq<Entry>)
    ensures SortedAsc(BottomPicks(s)) && SortedAsc(TopPicks(s))
  {
    var t := SortAsc(s);
    SortAscCorrect(s);
    TakeOfSorted(t, 3);
    BelowKeepsSorted(Take(t, 3), 7.0);
    var k := |t| - |TakeLast(t, 3)|;
    assert TakeLast(t, 3) == t[k..];
    assert SortedAsc(t[k..]);
    AboveKeepsSorted(TakeLast(t, 3), 5.0);
  }

  /** The bottom skills are the entries among the three lowest-scored that score below
      7: every entry outside those three scores at least as high as any bottom skill. */
  lemma BottomPicksAreLowest(s: seq<Entry>)
    ensures forall e :: e in BottomPicks(s) <==> e in Take(SortAsc(s), 3) && e.1 < 7.0
    ensures forall x, y :: x in multiset(s) - multiset(Take(SortAsc(s), 3)) && y in BottomPicks(s) ==> x.1 >= y.1
  {
    var t := SortAsc(s);
    SortAscCorrect(s);
    var k := |Take(t, 3)|;
    PrefixOfAscIsLowest(t, k);
    assert multiset(s) - multiset(Take(t, 3)) == multiset(t[k..]);
  }

  /** The top skills are the entries among the three highest-scored that score above
      5: every entry outside those three scores no higher than any top skill. */
  lemma TopPicksAreHighest(s: seq<Entry>)
    ensures forall e :: e in TopPicks(s) <==> e in TakeLast(SortAsc(s), 3) && e.1 > 5.0
    ensures forall x, y :: x in multiset(s) - multiset(TakeLast(SortAsc(s), 3)) && y in TopPicks(s) ==> x.1 <= y.1
  {
    var t := SortAsc(s);
    SortAscCorrect(s);
    var k := |t| - |TakeLast(t, 3)|;
    PrefixOfAscIsLowest(t, k);
    assert TakeLast(t, 3) == t[k..];
    assert multiset(s) - multiset(TakeLast(t, 3)) == multiset(t[..k]);
  }

  /** From six skills on, the first three and the last three sorted entries are
      distinct entries, so the two lists draw on different entries. */
  lemma PicksDisjointFromSix(s: seq<Entry>)
    requires |s| >= 6
    ensures multiset(BottomPicks(s)) + multiset(TopPicks(s)) <= multiset(s)
  {
    var t := SortAsc(s);
    SortAscCorrect(s);
    SortAscLength(s);
    var n := |s|;
    EndsApart(t);
    assert Take(t, 3) == t[..3];
    assert TakeLast(t, 3) == t[n - 3..];
    FilterSub(t[..3], 7.0);
    FilterSub(t[n - 3..], 5.0);
    assert BottomPicks(s) == Below(t[..3], 7.0);
    assert TopPicks(s) == Above(t[n - 3..], 5.0);
    assert |t| == n;
    SubAdd(multiset(BottomPicks(s)), multiset(TopPicks(s)), multiset(t[..3]), multiset(t[n - 3..]), multiset(t));
  }

  lemma SubAdd<T>(a: multiset<T>, b: multiset<T>, x: multiset<T>, y: multiset<T>, z: multiset<T>)
    requires a <= x && b <= y && x + y <= z
    ensures a + b <= z
  {
    forall e ensures (a + b)[e] <= z[e] {
      assert a[e] <= x[e] && b[e] <= y[e] && x[e] + y[e] <= z[e];
    }
  }

  /** In six entries or more, the first three and the last three do not overlap. */
  lemma EndsApart(t: seq<Entry>)
    requires |t| >= 6
    ensures multiset(t[..3]) + multiset(t[|t| - 3..]) <= multiset(t)
  {
    var n := |t|;
    assert t == t[..3] + t[3..n - 3] + t[n - 3..];
  }

  /** With few skills one skill can be both a bottom and a top skill: a single skill
      scored 6 is both. */
  lemma PicksCanOverlap()
    ensures BottomPicks([("a", 6.0)]) == [("a", 6.0)]
    ensures TopPicks([("a", 6.0)]) == [("a", 6.0)]
  {
    assert SortAsc([("a", 6.0)]) == [("a", 6.0)];
  }

  /** `_get_bottom_and_top_skills`: the bottom and then the top skill names. */
  method BottomAndTopSkills(buckets: Dict<string, Dict<string, Value>>) returns (r: Result<Dict<string, seq<string>>>)
    ensures NumericScores(Concat(Values(buckets))).Err? ==> r == Err(TypeError("scores must be numbers"))
    ensures NumericScores(Concat(Values(buckets))).Ok? ==>
      var s := NumericScores(Concat(Values(buckets))).value;
      r == Ok([("bottom_skills", Names(BottomPicks(s))), ("top_skills", Names(TopPicks(s)))])
  {
    var flat := FlattenScores(buckets);
    var s :- NumericScores(flat);
    return Ok([("bottom_skills", Names(BottomPicks(s))), ("top_skills", Names(TopPicks(s)))]);
  }

  // Text and descriptions

  /** `_get_text_for_top_and_bottom_skills`: each position (`bottom_skills`,
      `top_skills`) keeps its key and maps its skills to field-for-field copies of their
      entries; the first skill without an entry, positions taken in order, raises. */
  method TextForBottomAndTop(picks: Dict<string, seq<string>>, table: Table) returns (r: Result<Dict<string, Table>>)
    requires NoDupKeys(picks)
    ensures r.Ok? <==> forall i :: 0 <= i < |picks| ==> FirstMissing(picks[i].1, table).None?
    ensures r.Err? ==> exists i :: (
      && 0 <= i < |picks| && FirstMissing(picks[i].1, table).Some?
      && (forall k :: 0 <= k < i ==> FirstMissing(picks[k].1, table).None?)
      && r.error == KeyError(picks[i].1[FirstMissing(picks[i].1, table).value]))
    ensures r.Ok? ==> Keys(r.value) == Keys(picks)
    ensures r.Ok? ==> forall i :: 0 <= i < |picks| ==>
      && Keys(r.value[i].1) == Unique(picks[i].1)
      && NoDupKeys(r.value[i].1)
      && forall s :: s in picks[i].1 ==> Get(r.value[i].1, s) == Get(table, s)
  {
    var out: Dict<string, Table> := [];
    var i := 0;
    while i < |picks|
      invariant 0 <= i <= |picks|
      invariant forall k :: 0 <= k < i ==> FirstMissing(picks[k].1, table).None?
      invariant Keys(out) == Keys(picks)[..i]
      invariant forall k :: 0 <= k < i ==> CopyOf(picks[k].1, table, out[k].1)
    {
      var copied := CopyEntries(picks[i].1, table);
      if copied.Err? {
        return Err(copied.error);
      }
      TextStep(picks, table, i, out, copied.value);
      out := Set(out, picks[i].0, copied.value);
      i := i + 1;
    }
    return Ok(out);
  }

  /** `t` holds the entries of `skills` as the table has them, each skill once. */
  predicate CopyOf(skills: seq<string>, table: Table, t: Table) {
    && Keys(t) == Unique(skills)
    && NoDupKeys(t)
    && forall s :: s in skills ==> Get(t, s) == Get(table, s)
  }

  /** The copies of position `i` stored under its key, which is not there yet. */
  lemma TextStep(picks: Dict<string, seq<string>>, table: Table, i: nat, out: Dict<string, Table>, v: Table)
    requires NoDupKeys(picks) && i < |picks| && Keys(out) == Keys(picks)[..i]
    requires forall k :: 0 <= k < i ==> CopyOf(picks[k].1, table, out[k].1)
    requires CopyOf(picks[i].1, table, v)
    ensures Keys(Set(out, picks[i].0, v)) == Keys(picks)[..i + 1]
    ensures forall k :: 0 <= k < i + 1 ==> CopyOf(picks[k].1, table, Set(out, picks[i].0, v)[k].1)
  {
    assert picks[i].0 !in Keys(out) by {
      assert forall k :: 0 <= k < i ==> Keys(picks)[k] != Keys(picks)[i];
    }
    var next := Set(out, picks[i].0, v);
    assert next == out + [(picks[i].0, v)];
    assert forall k :: 0 <= k < i ==> next[k] == out[k];
    assert next[i].1 == v;
    assert Keys(picks)[..i + 1] == Keys(picks)[..i] + [picks[i].0];
  }

  /** `table[skill]["Description"]`. */
  function Description(skill: string, table: Table): (r: Result<Value>)
    ensures r.Ok? <==> skill in Keys(table) && StrKey("Description") in Keys(Get(table, skill).value)
    ensures skill !in Keys(table) ==> r == Err(KeyError(skill))
    ensures skill in Keys(table) && r.Err? ==> r == Err(KeyError("Description"))
    ensures r.Ok? ==> Get(Get(table, skill).value, StrKey("Description")) == Some(r.value)
  {
    match Get(table, skill)
    case None => Err(KeyError(skill))
    case Some(fields) => Subscript(VDict(fields), "Description")
  }

  /** Every skill of `bucket` has a description. */
  predicate Described(bucket: Dict<string, Value>, table: Table) {
    forall k :: 0 <= k < |bucket| ==> Description(bucket[k].0, table).Ok?
  }

  /** The skills of `bucket`, in order, each with its description. */
  function DescriptionsOf(bucket: Dict<string, Value>, table: Table): (r: Dict<string, Value>)
    requires Described(bucket, table)
    ensures Keys(r) == Keys(bucket)
  {
    seq(|bucket|, k requires 0 <= k < |bucket| => (bucket[k].0, Description(bucket[k].0, table).value))
  }

  /** What storing the description of `skill` under focus area `area` raises, if
      anything: the description is read before the focus area is looked up. */
  function StepError(area: string, skill: string, areas: FocusAreas, table: Table): (e: Option<Error>)
    ensures e.None? <==> Description(skill, table).Ok? && area in Keys(areas)
  {
    if Description(skill, table).Err? then Some(Description(skill, table).error)
    else if area !in Keys(areas) then Some(KeyError(area))
    else None
  }

  /** No step before skill `j` of bucket `i` raises. */
  predicate PassedBefore(buckets: Dict<string, Dict<string, Value>>, areas: FocusAreas, table: Table, i: nat, j: nat)
    requires i <= |buckets|
  {
    && (forall i', j' :: 0 <= i' < i && 0 <= j' < |buckets[i'].1| ==>
          StepError(buckets[i'].0, buckets[i'].1[j'].0, areas, table).None?)
    && (i < |buckets| ==> forall j' :: 0 <= j' < j && j' < |buckets[i].1| ==>
          StepError(buckets[i].0, buckets[i].1[j'].0, areas, table).None?)
  }

  /** Storing one more description in a bucket of distinct skills appends it. */
  lemma DescriptionStep(b: Dict<string, Value>, j: nat, table: Table)
    requires NoDupKeys(b) && j < |b| && Described(b[..j + 1], table)
    ensures Described(b[..j], table)
    ensures Set(DescriptionsOf(b[..j], table), b[j].0, Description(b[j].0, table).value) == DescriptionsOf(b[..j + 1], table)
  {
    assert forall k :: 0 <= k < j ==> b[..j + 1][k] == b[..j][k];
    var d := DescriptionsOf(b[..j], table);
    var e := (b[j].0, Description(b[j].0, table).value);
    assert b[j].0 !in Keys(d) by {
      assert forall k :: 0 <= k < j ==> Keys(d)[k] == Keys(b)[k] && Keys(b)[k] != Keys(b)[j];
    }
    assert Set(d, b[j].0, e.1) == d + [e];
    var full := DescriptionsOf(b[..j + 1], table);
    assert |full| == j + 1 && |d| == j;
    forall k | 0 <= k < j + 1 ensures full[k] == (d + [e])[k] {
      if k < j {
        assert full[k] == d[k];
      } else {
        assert full[k] == e;
      }
    }
    assert full == d + [e];
  }

  /** After bucket `i` the bucket of its area, and only that one, holds the bucket's
      descriptions. */
  lemma BucketDescribed(buckets: Dict<string, Dict<string, Value>>, areas: FocusAreas, table: Table, i: nat,
                        before: Dict<string, Dict<string, Value>>, out: Dict<string, Dict<string, Value>>)
    requires NoDupKeys(buckets) && NoDupKeys(areas) && i < |buckets|
    requires Keys(before) == Keys(areas) && Keys(out) == Keys(areas)
    requires forall p :: 0 <= p < |areas| && areas[p].0 !in Keys(buckets[..i]) ==> before[p].1 == []
    requires forall k :: 0 <= k < i && buckets[k].0 in Keys(areas) ==>
      Described(buckets[k].1, table) &&
      before[IndexOf(Keys(areas), buckets[k].0)].1 == DescriptionsOf(buckets[k].1, table)
    requires Described(buckets[i].1, table)
    requires buckets[i].1 == [] ==> out == before
    requires buckets[i].1 != [] ==> (buckets[i].0 in Keys(areas) &&
      out == before[IndexOf(Keys(areas), buckets[i].0) := (buckets[i].0, DescriptionsOf(buckets[i].1, table))])
    ensures forall p :: 0 <= p < |areas| && areas[p].0 !in Keys(buckets[..i + 1]) ==> out[p].1 == []
    ensures forall k :: 0 <= k < i + 1 && buckets[k].0 in Keys(areas) ==>
      Described(buckets[k].1, table) &&
      out[IndexOf(Keys(areas), buckets[k].0)].1 == DescriptionsOf(buckets[k].1, table)
  {
    var area := buckets[i].0;
    assert Keys(buckets[..i + 1]) == Keys(buckets[..i]) + [area];
    assert area !in Keys(buckets[..i]) by {
      assert forall k :: 0 <= k < i ==> Keys(buckets[..i])[k] == Keys(buckets)[k] && Keys(buckets)[k] != Keys(buckets)[i];
    }
    if area in Keys(areas) {
      var p0 := IndexOf(Keys(areas), area);
      assert before[p0].1 == [];
      forall k | 0 <= k < i && buckets[k].0 in Keys(areas)
        ensures IndexOf(Keys(areas), buckets[k].0) != p0
      {
        assert Keys(buckets)[k] != Keys(buckets)[i];
      }
    }
  }

  /** When no step raises, every bucket is described and every non-empty one belongs
      to a focus area. */
  lemma AllPassed(buckets: Dict<string, Dict<string, Value>>, areas: FocusAreas, table: Table)
    requires PassedBefore(buckets, areas, table, |buckets|, 0)
    ensures forall i :: 0 <= i < |buckets| ==>
      Described(buckets[i].1, table) && (buckets[i].1 == [] || buckets[i].0 in Keys(areas))
  {
    forall i | 0 <= i < |buckets|
      ensures Described(buckets[i].1, table) && (buckets[i].1 == [] || buckets[i].0 in Keys(areas))
    {
      forall k | 0 <= k < |buckets[i].1| ensures Description(buckets[i].1[k].0, table).Ok? {
        assert StepError(buckets[i].0, buckets[i].1[k].0, areas, table).None?;
      }
      if buckets[i].1 != [] {
        assert StepError(buckets[i].0, buckets[i].1[0].0, areas, table).None?;
      }
    }
  }

  /** The state of `_get_all_skills_description` after the first `i` buckets: no step
      has raised, the areas of no bucket so far are still empty, and the area of each
      bucket so far holds its descriptions. */
  predicate Progress(buckets: Dict<string, Dict<string, Value>>, areas: FocusAreas, table: Table, i: nat,
                     out: Dict<string, Dict<string, Value>>)
    requires i <= |buckets|
  {
    && Keys(out) == Keys(areas)
    && PassedBefore(buckets, areas, table, i, 0)
    && (forall p :: 0 <= p < |areas| && areas[p].0 !in Keys(buckets[..i]) ==> out[p].1 == [])
    && (forall k :: 0 <= k < i && buckets[k].0 in Keys(areas) ==>
          Described(buckets[k].1, table) &&
          out[IndexOf(Keys(areas), buckets[k].0)].1 == DescriptionsOf(buckets[k].1, table))
  }

  /** One skill of bucket `i` read without raising: the steps so far all passed. */
  lemma StorePassed(buckets: Dict<string, Dict<string, Value>>, areas: FocusAreas, table: Table, i: nat, j: nat)
    requires i < |buckets| && j < |buckets[i].1|
    requires PassedBefore(buckets, areas, table, i, j)
    requires Description(buckets[i].1[j].0, table).Ok? && buckets[i].0 in Keys(areas)
    ensures PassedBefore(buckets, areas, table, i, j + 1)
  {
    assert StepError(buckets[i].0, buckets[i].1[j].0, areas, table).None?;
  }

  /** The first `j` skills of bucket `i` are described, and stored under the bucket's
      area, which is a focus area, on top of `out`. */
  predicate Filled(buckets: Dict<string, Dict<string, Value>>, areas: FocusAreas, table: Table, i: nat, j: nat,
                   out: Dict<string, Dict<string, Value>>, next: Dict<string, Dict<string, Value>>)
    requires i < |buckets| && j <= |buckets[i].1|
  {
    && Keys(out) == Keys(areas)
    && Described(buckets[i].1[..j], table)
    && buckets[i].0 in Keys(areas)
    && next == out[IndexOf(Keys(areas), buckets[i].0) := (buckets[i].0, DescriptionsOf(buckets[i].1[..j], table))]
  }

  /** One skill of bucket `i` stored: the bucket's area holds one description more. */
  lemma StoreStep(buckets: Dict<string, Dict<string, Value>>, areas: FocusAreas, table: Table, i: nat, j: nat,
                  out: Dict<string, Dict<string, Value>>, next: Dict<string, Dict<string, Value>>,
                  next': Dict<string, Dict<string, Value>>)
    requires i < |buckets| && NoDupKeys(buckets[i].1) && j < |buckets[i].1|
    requires Keys(next) == Keys(areas) && Keys(out) == Keys(areas)
    requires Described(buckets[i].1[..j + 1], table)
    requires j == 0 ==> next == out
    requires j > 0 ==> Filled(buckets, areas, table, i, j, out, next)
    requires buckets[i].0 in Keys(areas) ==> out[IndexOf(Keys(areas), buckets[i].0)].1 == []
    requires buckets[i].0 in Keys(next)
    requires next' == next[IndexOf(Keys(next), buckets[i].0) :=
      (buckets[i].0, Set(next[IndexOf(Keys(next), buckets[i].0)].1, buckets[i].1[j].0,
                         Description(buckets[i].1[j].0, table).value))]
    ensures Keys(next') == Keys(areas)
    ensures Filled(buckets, areas, table, i, j + 1, out, next')
  {
    var (area, b) := buckets[i];
    DescriptionStep(b, j, table);
    var p := IndexOf(Keys(areas), area);
    var before := DescriptionsOf(b[..j], table);
    assert IndexOf(Keys(next), area) == p;
    assert next == out[p := (area, before)] by {
      if j == 0 {
        assert b[..0] == [];
        assert out[p] == (Keys(out)[p], out[p].1) == (area, before);
      }
    }
    assert next' == next[p := (area, DescriptionsOf(b[..j + 1], table))];
    Reupdate(out, p, (area, before), (area, DescriptionsOf(b[..j + 1], table)));
  }

  lemma Reupdate<T>(s: seq<T>, p: nat, x: T, y: T)
    requires p < |s|
    ensures s[p := x][p := y] == s[p := y]
  {
  }

  /** One pass of the inner loop of `_get_all_skills_description`: a skill read and
      stored without raising keeps every loop invariant. */
  lemma StoreAdvance(buckets: Dict<string, Dict<string, Value>>, areas: FocusAreas, table: Table, i: nat, j: nat,
                     out: Dict<string, Dict<string, Value>>, next: Dict<string, Dict<string, Value>>,
                     next': Dict<string, Dict<string, Value>>)
    requires i < |buckets| && NoDupKeys(buckets[i].1) && j < |buckets[i].1|
    requires Keys(next) == Keys(areas) && Keys(out) == Keys(areas)
    requires PassedBefore(buckets, areas, table, i, j)
    requires Described(buckets[i].1[..j], table)
    requires j == 0 ==> next == out
    requires j > 0 ==> Filled(buckets, areas, table, i, j, out, next)
    requires buckets[i].0 in Keys(areas) ==> out[IndexOf(Keys(areas), buckets[i].0)].1 == []
    requires Description(buckets[i].1[j].0, table).Ok? && buckets[i].0 in Keys(next)
    requires next' == next[IndexOf(Keys(next), buckets[i].0) :=
      (buckets[i].0, Set(next[IndexOf(Keys(next), buckets[i].0)].1, buckets[i].1[j].0,
                         Description(buckets[i].1[j].0, table).value))]
    ensures Keys(next') == Keys(areas)
    ensures PassedBefore(buckets, areas, table, i, j + 1)
    ensures Described(buckets[i].1[..j + 1], table)
    ensures Filled(buckets, areas, table, i, j + 1, out, next')
  {
    var b := buckets[i].1;
    StorePassed(buckets, areas, table, i, j);
    assert Described(b[..j + 1], table) by {
      assert forall k :: 0 <= k < j ==> b[..j + 1][k] == b[..j][k];
    }
    StoreStep(buckets, areas, table, i, j, out, next, next');
  }

  /** The inner loop of `_get_all_skills_description` for bucket `i`: each skill's
      description is read, then the bucket's area is looked up and the description
      stored there. */
  method StoreBucket(buckets: Dict<string, Dict<string, Value>>, areas: FocusAreas, table: Table, i: nat,
                     out: Dict<string, Dict<string, Value>>)
    returns (r: Result<Dict<string, Dict<string, Value>>>)
    requires NoDupKeys(buckets) && NoDupKeys(areas) && i < |buckets| && NoDupKeys(buckets[i].1)
    requires Progress(buckets, areas, table, i, out)
    ensures r.Ok? ==> Progress(buckets, areas, table, i + 1, r.value)
    ensures r.Err? ==> exists j :: (
      && 0 <= j < |buckets[i].1|
      && PassedBefore(buckets, areas, table, i, j)
      && StepError(buckets[i].0, buckets[i].1[j].0, areas, table) == Some(r.error))
  {
    var area := buckets[i].0;
    var b := buckets[i].1;
    var next := out;
    assert area in Keys(areas) ==> out[IndexOf(Keys(areas), area)].1 == [] by {
      assert area !in Keys(buckets[..i]) by {
        assert forall k :: 0 <= k < i ==> Keys(buckets[..i])[k] == Keys(buckets)[k] && Keys(buckets)[k] != Keys(buckets)[i];
      }
    }
    var j := 0;
    while j < |b|
      invariant 0 <= j <= |b|
      invariant Keys(next) == Keys(areas)
      invariant PassedBefore(buckets, areas, table, i, j)
      invariant Described(b[..j], table)
      invariant j == 0 ==> next == out
      invariant j > 0 ==> Filled(buckets, areas, table, i, j, out, next)
    {
      var skill := b[j].0;
      var d := Description(skill, table);
      if d.Err? {
        assert StepError(buckets[i].0, buckets[i].1[j].0, areas, table) == Some(d.error);
        return Err(d.error);
      }
      if area !in Keys(next) {
        assert StepError(buckets[i].0, buckets[i].1[j].0, areas, table) == Some(KeyError(area));
        return Err(KeyError(area));
      }
      var p := IndexOf(Keys(next), area);
      ghost var was := next;
      next := next[p := (area, Set(next[p].1, skill, d.value))];
      StoreAdvance(buckets, areas, table, i, j, out, was, next);
      j := j + 1;
    }
    assert b[..j] == b;
    assert b == buckets[i].1;
    BucketDescribed(buckets, areas, table, i, out, next);
    return Ok(next);
  }

  /** `_get_all_skills_description`: every focus area is a key, in the order of the
      focus-area table; the area of each bucket maps the bucket's skills, in order, to
      their descriptions, and an area without a bucket stays empty. The first step that
      raises decides the error: a skill without a description, or a non-empty bucket
      whose area is not a focus area. All three tables are dictionaries, so their keys
      are distinct. */
  method AllSkillsDescription(buckets: Dict<string, Dict<string, Value>>, areas: FocusAreas, table: Table)
    returns (r: Result<Dict<string, Dict<string, Value>>>)
    requires NoDupKeys(buckets) && NoDupKeys(areas)
    requires forall i :: 0 <= i < |buckets| ==> NoDupKeys(buckets[i].1)
    ensures r.Ok? <==> forall i :: 0 <= i < |buckets| ==>
      Described(buckets[i].1, table) && (buckets[i].1 == [] || buckets[i].0 in Keys(areas))
    ensures r.Err? ==> exists i, j :: (
      && 0 <= i < |buckets| && 0 <= j < |buckets[i].1|
      && PassedBefore(buckets, areas, table, i, j)
      && StepError(buckets[i].0, buckets[i].1[j].0, areas, table) == Some(r.error))
    ensures r.Ok? ==> Keys(r.value) == Keys(areas)
    ensures r.Ok? ==> forall p :: 0 <= p < |areas| && areas[p].0 !in Keys(buckets) ==> r.value[p].1 == []
    ensures r.Ok? ==> forall i :: 0 <= i < |buckets| && buckets[i].0 in Keys(areas) ==>
      r.value[IndexOf(Keys(areas), buckets[i].0)].1 == DescriptionsOf(buckets[i].1, table)
  {
    var out: Dict<string, Dict<string, Value>> := EmptyBuckets(areas);
    var i := 0;
    while i < |buckets|
      invariant 0 <= i <= |buckets|
      invariant Progress(buckets, areas, table, i, out)
    {
      var stored := StoreBucket(buckets, areas, table, i, out);
      if stored.Err? {
        return Err(stored.error);
      }
      out := stored.value;
      i := i + 1;
    }
    assert buckets[..i] == buckets;
    AllPassed(buckets, areas, table);
    return Ok(out);
  }

  // The percentage rule and the PDF name

  /** `100 * v if v < 1 else v`: an average given as a fraction is turned into a
      percentage. */
  function AsPercentage(v: real): (r: real)
    ensures v >= 1.0 ==> r == v
    ensures 0.0 <= v < 1.0 ==> 0.0 <= r < 100.0
    ensures r == v <==> v >= 1.0 || v == 0.0
  {
    if v < 1.0 then 100.0 * v else v
  }

  /** Applying the rule a second time changes nothing exactly when the first result
      is no longer a fraction: from 0.01 on, or at 0. */
  lemma AsPercentageTwice(v: real)
    ensures AsPercentage(AsPercentage(v)) == AsPercentage(v) <==> v >= 0.01 || v == 0.0
  {
  }

  /** The PDF file name: the video id with `.pdf`. The user id, the video id, the name
      and the company name are all read first, so a missing one raises, and a name or
      company name that is not a string raises on `replace`. */
  function VideoPdfName(profile: seq<(Key, Value)>): (r: Result<string>)
    ensures r.Ok? <==>
      && StrKey("user_id") in Keys(profile)
      && StrKey("video_id") in Keys(profile)
      && Underscored(profile, "name").Ok?
      && Underscored(profile, "company_name").Ok?
    ensures r.Ok? ==> r.value == Str(Get(profile, StrKey("video_id")).value) + ".pdf"
    ensures StrKey("user_id") !in Keys(profile) ==> r == Err(KeyError("user_id"))
  {
    var userId :- Subscript(VDict(profile), "user_id");
    var videoId :- Subscript(VDict(profile), "video_id");
    var name :- Underscored(profile, "name");
    var company :- Underscored(profile, "company_name");
    Ok(Str(videoId) + ".pdf")
  }

  /** The PDF name depends on the video id alone: two profiles that both yield a name and
      have the same video id yield the same name. */
  lemma VideoPdfNameOnlyVideoId(p: seq<(Key, Value)>, q: seq<(Key, Value)>)
    requires VideoPdfName(p).Ok? && VideoPdfName(q).Ok?
    requires Get(p, StrKey("video_id")) == Get(q, StrKey("video_id"))
    ensures VideoPdfName(p) == VideoPdfName(q)
  {
  }
}
