/** The data-shaping steps of the talent-insights report: payload validation, payload
    parsing, the choice of skills for the spider plot, the top and bottom skills, the
    text lookup for them, and the report file names. */
module TalentInsightsReport {
  import opened Common
  import opened Text
  import opened OrderedDict
  import opened PyValue
  import opened Ranking
  import opened SkillText

  const KeyMessage := "Input must be nested dictionaries with values as either string, int, or float"
  const LeafMessage := "Input must be nested dictionaries with values as either string, int, list or float"

  /** The leaf types the validator admits: float, int (booleans included), str, list
      and None. */
  predicate AllowedLeaf(v: Value) {
    v.VFloat? || v.VInt? || v.VBool? || v.VStr? || v.VList? || v.VNone?
  }

  /** A nested dictionary whose keys are all strings, at every depth, and whose
      non-dictionary values are all admitted leaves. Lists are not looked into. */
  predicate WellFormed(v: Value) {
    v.VDict? && forall i :: 0 <= i < |v.entries| ==> EntryOk(v, i)
  }

  predicate EntryOk(v: Value, i: nat)
    requires v.VDict? && i < |v.entries|
    decreases v, 0
  {
    v.entries[i].0.StrKey?
    && (if v.entries[i].1.VDict? then WellFormed(v.entries[i].1) else AllowedLeaf(v.entries[i].1))
  }

  /** Every key of every nested dictionary is a string. */
  predicate KeysOk(v: Value) {
    v.VDict? ==> forall i :: 0 <= i < |v.entries| ==> KeyEntryOk(v, i)
  }

  predicate KeyEntryOk(v: Value, i: nat)
    requires v.VDict? && i < |v.entries|
    decreases v, 0
  {
    v.entries[i].0.StrKey? && KeysOk(v.entries[i].1)
  }

  /** Every value that is not a dictionary, at every depth, is an admitted leaf. */
  predicate LeavesOk(v: Value) {
    v.VDict? ==> forall i :: 0 <= i < |v.entries| ==> LeafEntryOk(v, i)
  }

  predicate LeafEntryOk(v: Value, i: nat)
    requires v.VDict? && i < |v.entries|
    decreases v, 0
  {
    if v.entries[i].1.VDict? then LeavesOk(v.entries[i].1) else AllowedLeaf(v.entries[i].1)
  }

  /** A well-formed payload is exactly a dictionary whose keys are strings and whose
      leaves are admitted. */
  lemma {:induction false} WellFormedIffKeysAndLeaves(v: Value)
    ensures WellFormed(v) <==> v.VDict? && KeysOk(v) && LeavesOk(v)
    decreases v
  {
    if v.VDict? {
      forall i | 0 <= i < |v.entries|
        ensures EntryOk(v, i) <==> KeyEntryOk(v, i) && LeafEntryOk(v, i)
      {
        var c := v.entries[i].1;
        if c.VDict? {
          WellFormedIffKeysAndLeaves(c);
        } else {
          assert KeysOk(c);
        }
      }
      if KeysOk(v) && LeavesOk(v) {
        assert forall i :: 0 <= i < |v.entries| ==> KeyEntryOk(v, i) && LeafEntryOk(v, i);
        assert WellFormed(v);
      }
      if WellFormed(v) {
        assert forall i :: 0 <= i < |v.entries| ==> EntryOk(v, i);
        assert KeysOk(v) && LeavesOk(v);
      }
    }
  }

  /** The number of dictionaries and values in `v`: what is left for the walk below. */
  function Size(v: Value): (n: nat)
    ensures n >= 1
    decreases v, 1
  {
    if v.VDict? then 1 + SizeFrom(v, 0) else 1
  }

  function SizeFrom(v: Value, i: nat): nat
    requires v.VDict? && i <= |v.entries|
    decreases v, 0, |v.entries| - i
  {
    if i == |v.entries| then 0 else Size(v.entries[i].1) + SizeFrom(v, i + 1)
  }

  function StackSize(stack: seq<Value>): nat {
    if stack == [] then 0 else StackSize(stack[..|stack| - 1]) + Size(stack[|stack| - 1])
  }

  /** The stack and the remaining entries of the dictionary being walked, checked
      by one of the three properties above. */
  predicate AllWellFormed(stack: seq<Value>) { forall j :: 0 <= j < |stack| ==> WellFormed(stack[j]) }
  predicate AllKeysOk(stack: seq<Value>) { forall j :: 0 <= j < |stack| ==> KeysOk(stack[j]) }
  predicate AllLeavesOk(stack: seq<Value>) { forall j :: 0 <= j < |stack| ==> LeavesOk(stack[j]) }

  lemma AllWellFormedAppend(stack: seq<Value>, v: Value)
    ensures AllWellFormed(stack + [v]) <==> AllWellFormed(stack) && WellFormed(v)
  {
    var s := stack + [v];
    if AllWellFormed(s) {
      assert WellFormed(s[|stack|]);
      assert forall j :: 0 <= j < |stack| ==> s[j] == stack[j];
    }
  }

  predicate EntriesOkFrom(v: Value, i: nat)
    requires v.VDict?
  {
    forall k :: i <= k < |v.entries| ==> EntryOk(v, k)
  }

  predicate KeyEntriesOkFrom(v: Value, i: nat)
    requires v.VDict?
  {
    forall k :: i <= k < |v.entries| ==> KeyEntryOk(v, k)
  }

  predicate LeafEntriesOkFrom(v: Value, i: nat)
    requires v.VDict?
  {
    forall k :: i <= k < |v.entries| ==> LeafEntryOk(v, k)
  }

  /** Popping the top of the stack: the rest of the stack and the entries of the top. */
  lemma PopStack(was: seq<Value>, stack: seq<Value>, current: Value)
    requires was == stack + [current] && current.VDict?
    ensures AllWellFormed(was) <==> AllWellFormed(stack) && EntriesOkFrom(current, 0)
    ensures AllKeysOk(was) ==> AllKeysOk(stack) && KeyEntriesOkFrom(current, 0)
    ensures AllLeavesOk(was) ==> AllLeavesOk(stack) && LeafEntriesOkFrom(current, 0)
    ensures StackSize(stack) + SizeFrom(current, 0) < StackSize(was)
  {
    assert was[..|was| - 1] == stack;
    AllWellFormedAppend(stack, current);
    assert forall j :: 0 <= j < |stack| ==> was[j] == stack[j];
    assert was[|stack|] == current;
  }

  /** Pushing a nested dictionary onto the stack. */
  lemma PushStack(stack: seq<Value>, v: Value)
    ensures AllWellFormed(stack + [v]) <==> AllWellFormed(stack) && WellFormed(v)
    ensures AllKeysOk(stack) && KeysOk(v) ==> AllKeysOk(stack + [v])
    ensures AllLeavesOk(stack) && LeavesOk(v) ==> AllLeavesOk(stack + [v])
  {
    AllWellFormedAppend(stack, v);
    assert forall j :: 0 <= j < |stack| ==> (stack + [v])[j] == stack[j];
  }

  /** The entries from `i` on are the entry at `i` and those after it. */
  lemma EntriesFrom(v: Value, i: nat)
    requires v.VDict? && i < |v.entries|
    ensures EntriesOkFrom(v, i) <==> EntryOk(v, i) && EntriesOkFrom(v, i + 1)
    ensures KeyEntriesOkFrom(v, i) ==> KeyEntryOk(v, i) && KeyEntriesOkFrom(v, i + 1)
    ensures LeafEntriesOkFrom(v, i) ==> LeafEntryOk(v, i) && LeafEntriesOkFrom(v, i + 1)
  {
  }

  /** The invariant of the walk over the entries of `current`: what is still on the
      stack and the entries from `i` on decide each property of the payload, and less
      is left to walk than `before`. */
  predicate Walking(payload: Value, stack: seq<Value>, current: Value, i: nat, before: nat)
    requires current.VDict? && i <= |current.entries|
  {
    && (forall j :: 0 <= j < |stack| ==> stack[j].VDict?)
    && (WellFormed(payload) <==> AllWellFormed(stack) && EntriesOkFrom(current, i))
    && (KeysOk(payload) ==> AllKeysOk(stack) && KeyEntriesOkFrom(current, i))
    && (LeavesOk(payload) ==> AllLeavesOk(stack) && LeafEntriesOkFrom(current, i))
    && StackSize(stack) + SizeFrom(current, i) < before
  }

  /** Entry `i` of `current` walked: a key that is not a string fails the payload's
      keys, a nested dictionary is pushed, an admitted leaf is passed over and any other
      leaf fails the payload's leaves. */
  lemma WalkStep(payload: Value, stack: seq<Value>, current: Value, i: nat, before: nat)
    requires current.VDict? && i < |current.entries| && Walking(payload, stack, current, i, before)
    ensures var (k, v) := current.entries[i];
      && (!k.StrKey? ==> !WellFormed(payload) && !KeysOk(payload))
      && (k.StrKey? && v.VDict? ==> Walking(payload, stack + [v], current, i + 1, before))
      && (k.StrKey? && !v.VDict? && AllowedLeaf(v) ==> Walking(payload, stack, current, i + 1, before))
      && (!v.VDict? && !AllowedLeaf(v) ==> !WellFormed(payload) && !LeavesOk(payload))
  {
    var v := current.entries[i].1;
    EntriesFrom(current, i);
    PushStack(stack, v);
    assert (stack + [v])[..|stack|] == stack;
    assert StackSize(stack + [v]) == StackSize(stack) + Size(v);
    assert forall j :: 0 <= j < |stack| ==> (stack + [v])[j] == stack[j];
  }

  /** `_validate_payload`: a depth-first walk over the nested dictionaries with an
      explicit stack. It passes exactly on well-formed payloads; a key that is not a
      string and a leaf of another type raise `TypeError` with different messages, so a
      payload whose keys are all strings can only fail with the leaf message and one
      whose leaves are all admitted only with the key message. */
  method ValidatePayload(payload: Value) returns (o: Outcome)
    ensures o == Pass <==> WellFormed(payload)
    ensures !payload.VDict? ==> o == Fail(TypeError(KeyMessage))
    ensures o.Fail? ==> o == Fail(TypeError(KeyMessage)) || o == Fail(TypeError(LeafMessage))
    ensures payload.VDict? && o == Fail(TypeError(KeyMessage)) ==> !KeysOk(payload)
    ensures o == Fail(TypeError(LeafMessage)) ==> !LeavesOk(payload)
  {
    if !payload.VDict? {
      return Fail(TypeError(KeyMessage));
    }
    var stack := [payload];
    while stack != []
      invariant forall j :: 0 <= j < |stack| ==> stack[j].VDict?
      invariant WellFormed(payload) <==> AllWellFormed(stack)
      invariant KeysOk(payload) ==> AllKeysOk(stack)
      invariant LeavesOk(payload) ==> AllLeavesOk(stack)
      decreases StackSize(stack)
    {
      ghost var before := StackSize(stack);
      ghost var was := stack;
      var current := stack[|stack| - 1];
      stack := stack[..|stack| - 1];
      var entries := current.entries;
      PopStack(was, stack, current);
      var i := 0;
      while i < |entries|
        invariant 0 <= i <= |entries|
        invariant Walking(payload, stack, current, i, before)
      {
        var (key, value) := entries[i];
        WalkStep(payload, stack, current, i, before);
        if !key.StrKey? {
          return Fail(TypeError(KeyMessage));
        }
        if value.VDict? {
          stack := stack + [value];
        } else if !AllowedLeaf(value) {
          return Fail(TypeError(LeafMessage));
        }
        i := i + 1;
      }
    }
    return Pass;
  }

  /** A skill's two scores as the parser pairs them: the candidate's own and the fixed
      comparison score. */
  datatype SkillScores = SkillScores(self: Value, comparison: Value)

  const ComparisonScore := VInt(9)

  predicate AllStrKeys(entries: seq<(Key, Value)>) {
    forall i :: 0 <= i < |entries| ==> entries[i].0.StrKey?
  }

  /** The keys of `entries`, lower-cased. */
  function LoweredNames(entries: seq<(Key, Value)>): (names: seq<string>)
    requires AllStrKeys(entries)
    ensures |names| == |entries|
    ensures forall i :: 0 <= i < |entries| ==> names[i] == Lower(entries[i].0.s)
  {
    seq(|entries|, i requires 0 <= i < |entries| => Lower(entries[i].0.s))
  }

  /** `{k.lower(): {"Self": v, "Comparison": 9} for k, v in skill_scores.items()}`, built
      entry by entry: a later name that lower-cases to an earlier one overwrites its
      value in place. An integer key has no `lower`. */
  function LowercasedScores(entries: seq<(Key, Value)>): Result<Dict<string, SkillScores>>
    decreases |entries|
  {
    if entries == [] then Ok([])
    else
      var last := entries[|entries| - 1];
      match LowercasedScores(entries[..|entries| - 1])
      case Err(e) => Err(e)
      case Ok(d) =>
        if last.0.IntKey? then Err(AttributeError("'int' object has no attribute 'lower'"))
        else Ok(Set(d, Lower(last.0.s), SkillScores(last.1, ComparisonScore)))
  }

  /** Lower-casing fails exactly when some skill name is not a string. */
  lemma {:induction false} LowercasedScoresFails(entries: seq<(Key, Value)>)
    ensures LowercasedScores(entries).Err? <==> !AllStrKeys(entries)
    ensures LowercasedScores(entries).Err? ==>
      LowercasedScores(entries).error == AttributeError("'int' object has no attribute 'lower'")
    decreases |entries|
  {
    if entries != [] {
      var init := entries[..|entries| - 1];
      LowercasedScoresFails(init);
      AllStrKeysSnoc(entries, init);
    }
  }

  lemma AllStrKeysSnoc(entries: seq<(Key, Value)>, init: seq<(Key, Value)>)
    requires entries != [] && init == entries[..|entries| - 1]
    ensures AllStrKeys(entries) <==> AllStrKeys(init) && entries[|entries| - 1].0.StrKey?
  {
    assert forall i :: 0 <= i < |init| ==> init[i] == entries[i];
    if !AllStrKeys(init) {
      var i :| 0 <= i < |init| && !init[i].0.StrKey?;
      assert !entries[i].0.StrKey?;
    }
  }

  /** The parsed scores hold one key per distinct lower-cased name, in the order the
      names first appear. */
  lemma {:induction false} LowercasedScoresKeys(entries: seq<(Key, Value)>)
    requires AllStrKeys(entries)
    ensures LowercasedScores(entries).Ok?
    ensures Keys(LowercasedScores(entries).value) == Unique(LoweredNames(entries))
    ensures NoDupKeys(LowercasedScores(entries).value)
    decreases |entries|
  {
    if entries != [] {
      var n := |entries| - 1;
      var init := entries[..n];
      LowercasedStep(entries, init);
      LowercasedScoresKeys(init);
      KeysStep(LowercasedScores(init).value, LoweredNames(init), Lower(entries[n].0.s),
               SkillScores(entries[n].1, ComparisonScore));
    }
  }

  /** One further entry: its lower-cased name is set in the scores of the ones before. */
  lemma LowercasedStep(entries: seq<(Key, Value)>, init: seq<(Key, Value)>)
    requires AllStrKeys(entries) && entries != [] && init == entries[..|entries| - 1]
    ensures AllStrKeys(init)
    ensures LoweredNames(entries) == LoweredNames(init) + [Lower(entries[|entries| - 1].0.s)]
    ensures LowercasedScores(init).Ok? ==>
      LowercasedScores(entries) == Ok(Set(LowercasedScores(init).value, Lower(entries[|entries| - 1].0.s),
                                          SkillScores(entries[|entries| - 1].1, ComparisonScore)))
  {
    AllStrKeysSnoc(entries, init);
    assert forall i :: 0 <= i < |init| ==> init[i] == entries[i];
  }

  lemma KeysStep(d: Dict<string, SkillScores>, names: seq<string>, name: string, v: SkillScores)
    requires NoDupKeys(d) && Keys(d) == Unique(names)
    ensures NoDupKeys(Set(d, name, v)) && Keys(Set(d, name, v)) == Unique(names + [name])
  {
    UniqueAppend(names, name);
    GetSet(d, name, v, name);
  }

  /** Each parsed key holds the score of the LAST skill that lower-cases to it, paired
      with the comparison score 9. */
  lemma {:induction false} LowercasedScoresLastWins(entries: seq<(Key, Value)>, i: nat)
    requires AllStrKeys(entries) && i < |entries| && LastWithName(entries, i)
    ensures LowercasedScores(entries).Ok?
    ensures Get(LowercasedScores(entries).value, Lower(entries[i].0.s)) == Some(SkillScores(entries[i].1, ComparisonScore))
    decreases |entries|
  {
    var n := |entries| - 1;
    var init := entries[..n];
    AllStrKeysSnoc(entries, init);
    if i < n {
      LastWithNameInit(entries, init, i);
      LowercasedScoresLastWins(init, i);
      LastWinsBeforeLast(entries, init, i);
    } else {
      LastWinsAtLast(entries, init, i);
    }
  }

  /** A skill before the last keeps its scores when the last one's name differs. */
  lemma LastWinsBeforeLast(entries: seq<(Key, Value)>, init: seq<(Key, Value)>, i: nat)
    requires AllStrKeys(entries) && entries != [] && init == entries[..|entries| - 1] && i < |init|
    requires AllStrKeys(init) && init[i] == entries[i]
    requires Lower(entries[|entries| - 1].0.s) != Lower(entries[i].0.s)
    requires LowercasedScores(init).Ok?
    requires Get(LowercasedScores(init).value, Lower(init[i].0.s)) == Some(SkillScores(init[i].1, ComparisonScore))
    ensures LowercasedScores(entries).Ok?
    ensures Get(LowercasedScores(entries).value, Lower(entries[i].0.s)) == Some(SkillScores(entries[i].1, ComparisonScore))
  {
    var n := |entries| - 1;
    LowercasedStep(entries, init);
    LowercasedScoresKeys(init);
    var d := LowercasedScores(init).value;
    GetSet(d, Lower(entries[n].0.s), SkillScores(entries[n].1, ComparisonScore), Lower(entries[i].0.s));
  }

  /** The last skill's scores are the ones stored under its name. */
  lemma LastWinsAtLast(entries: seq<(Key, Value)>, init: seq<(Key, Value)>, i: nat)
    requires AllStrKeys(entries) && entries != [] && init == entries[..|entries| - 1] && i == |init|
    ensures LowercasedScores(entries).Ok?
    ensures Get(LowercasedScores(entries).value, Lower(entries[i].0.s)) == Some(SkillScores(entries[i].1, ComparisonScore))
  {
    LowercasedStep(entries, init);
    LowercasedScoresKeys(init);
    assert entries[|entries| - 1] == entries[i];
    var d := LowercasedScores(init).value;
    GetSet(d, Lower(entries[i].0.s), SkillScores(entries[i].1, ComparisonScore), Lower(entries[i].0.s));
  }

  lemma LastWithNameInit(entries: seq<(Key, Value)>, init: seq<(Key, Value)>, i: nat)
    requires AllStrKeys(entries) && i < |entries| - 1 && LastWithName(entries, i)
    requires init == entries[..|entries| - 1] && AllStrKeys(init)
    ensures init[i] == entries[i] && LastWithName(init, i)
    ensures Lower(entries[|entries| - 1].0.s) != Lower(entries[i].0.s)
  {
    assert forall j :: 0 <= j < |init| ==> init[j] == entries[j];
  }

  /** No skill after the `i`-th lower-cases to the same name. */
  predicate LastWithName(entries: seq<(Key, Value)>, i: nat)
    requires AllStrKeys(entries) && i < |entries|
  {
    forall j :: i < j < |entries| ==> Lower(entries[j].0.s) != Lower(entries[i].0.s)
  }

  /** `dict_candidate.get("company", "")` stored back as `company_name`. Only a
      dictionary has `get`. */
  function CandidateProfile(candidate: Value): (r: Result<seq<(Key, Value)>>)
    ensures r.Err? <==> !candidate.VDict?
    ensures r.Err? ==> r.error == AttributeError("'" + TypeName(candidate) + "' object has no attribute 'get'")
  {
    match GetOr(candidate, "company", VStr(""))
    case Err(e) => Err(e)
    case Ok(company) => Ok(Set(candidate.entries, StrKey("company_name"), company))
  }

  /** The profile keeps every field of the candidate and adds `company_name`, which is
      the candidate's `company`, or the empty string without one. */
  lemma CandidateProfileFields(candidate: Value, k: Key)
    requires candidate.VDict? && NoDupKeys(candidate.entries)
    ensures NoDupKeys(CandidateProfile(candidate).value)
    ensures Get(CandidateProfile(candidate).value, StrKey("company_name")) ==
      Some(if StrKey("company") in Keys(candidate.entries) then Get(candidate.entries, StrKey("company")).value else VStr(""))
    ensures k != StrKey("company_name") ==> Get(CandidateProfile(candidate).value, k) == Get(candidate.entries, k)
  {
    var company := GetOr(candidate, "company", VStr("")).value;
    GetSet(candidate.entries, StrKey("company_name"), company, k);
    GetSet(candidate.entries, StrKey("company_name"), company, StrKey("company_name"));
  }

  /** `payload["skill_scores"].items()` lower-cased as above. */
  function ParsedScores(remaining: seq<(Key, Value)>): Result<Dict<string, SkillScores>>
  {
    match Subscript(VDict(remaining), "skill_scores")
    case Err(e) => Err(e)
    case Ok(v) =>
      if v.VDict? then LowercasedScores(v.entries)
      else Err(AttributeError("'" + TypeName(v) + "' object has no attribute 'items'"))
  }

  /** What `_parse_payload` hands on: the candidate profile, the job fitment and the
      skill scores. */
  datatype Parsed = Parsed(candidate: seq<(Key, Value)>, jobFitment: Value, scores: Dict<string, SkillScores>)

  /** `_parse_payload`: pops `Candidate` and `Job Fitment` from the caller's payload
      (whatever step raises afterwards, the pops already made stay made), completes
      the candidate profile and lower-cases the skill scores. */
  method ParsePayload(payload: DictObject) returns (r: Result<Parsed>)
    modifies payload
    ensures StrKey("Candidate") !in Keys(old(payload.entries)) ==>
      r == Err(KeyError("Candidate")) && payload.entries == old(payload.entries)
    ensures (StrKey("Candidate") in Keys(old(payload.entries)) &&
             !Get(old(payload.entries), StrKey("Candidate")).value.VDict?) ==>
      r == Err(CandidateProfile(Get(old(payload.entries), StrKey("Candidate")).value).error) &&
      payload.entries == Remove(old(payload.entries), StrKey("Candidate"))
    ensures (StrKey("Candidate") in Keys(old(payload.entries)) &&
             Get(old(payload.entries), StrKey("Candidate")).value.VDict? &&
             StrKey("Job Fitment") !in Keys(old(payload.entries))) ==>
      r == Err(KeyError("Job Fitment")) &&
      payload.entries == Remove(old(payload.entries), StrKey("Candidate"))
    ensures (StrKey("Candidate") in Keys(old(payload.entries)) &&
             Get(old(payload.entries), StrKey("Candidate")).value.VDict? &&
             StrKey("Job Fitment") in Keys(old(payload.entries))) ==>
      payload.entries == Remove(Remove(old(payload.entries), StrKey("Candidate")), StrKey("Job Fitment")) &&
      (ParsedScores(payload.entries).Err? ==> r == Err(ParsedScores(payload.entries).error)) &&
      (ParsedScores(payload.entries).Ok? ==> r == Ok(Parsed(
        CandidateProfile(Get(old(payload.entries), StrKey("Candidate")).value).value,
        Get(old(payload.entries), StrKey("Job Fitment")).value,
        ParsedScores(payload.entries).value)))
  {
    var candidate := payload.Pop("Candidate");
    if candidate.Err? {
      return Err(candidate.error);
    }
    var profile := CandidateProfile(candidate.value);
    if profile.Err? {
      return Err(profile.error);
    }
    GetRemove(old(payload.entries), StrKey("Candidate"), StrKey("Job Fitment"));
    var jobFitment := payload.Pop("Job Fitment");
    if jobFitment.Err? {
      return Err(jobFitment.error);
    }
    var scores := ParsedScores(payload.entries);
    if scores.Err? {
      return Err(scores.error);
    }
    return Ok(Parsed(profile.value, jobFitment.value, scores.value));
  }

  /** `df_all_scores["Self"]` with the scores read as numbers: the self scores in the
      order of the parsed skills. Without any skill the frame has no `Self` column. A
      non-numeric score stops here with a `TypeError`, where pandas would carry a NaN or
      sort the column as text; those outcomes are not modelled. */
  function SelfScores(scores: Dict<string, SkillScores>): (r: Result<seq<Entry>>)
    ensures r.Ok? <==> scores != [] && forall i :: 0 <= i < |scores| ==> IsNumber(scores[i].1.self)
    ensures scores == [] ==> r == Err(KeyError("Self"))
    ensures r.Ok? ==> Names(r.value) == Keys(scores)
    ensures r.Ok? ==> forall i :: 0 <= i < |scores| ==> r.value[i].1 == AsReal(scores[i].1.self)
  {
    if scores == [] then Err(KeyError("Self"))
    else if exists i :: 0 <= i < |scores| && !IsNumber(scores[i].1.self) then
      Err(TypeError("scores must be numbers"))
    else
      Ok(seq(|scores|, i requires 0 <= i < |scores| => (scores[i].0, AsReal(scores[i].1.self))))
  }

  /** `series_sorted[:5]`: the five lowest-scored entries, lowest first. */
  function BottomFive(s: seq<Entry>): seq<Entry> {
    Take(SortAsc(s), 5)
  }

  /** `series_sorted[-5:]`: the five highest-scored entries, still in ascending order. */
  function TopFive(s: seq<Entry>): seq<Entry> {
    TakeLast(SortAsc(s), 5)
  }

  /** `_choose_skills_for_spider_plot`. */
  function SpiderSkills(s: seq<Entry>): seq<string> {
    Names(BottomFive(s)) + Names(TopFive(s))
  }

  /** The spider plot shows `2 * min(n, 5)` skills. */
  lemma SpiderSkillsLength(s: seq<Entry>)
    ensures |SpiderSkills(s)| == 2 * (if |s| < 5 then |s| else 5)
  {
    SortAscLength(s);
  }

  /** The first half of the spider skills are the lowest-scored entries: whatever is
      left out scores no lower than any of them. */
  lemma BottomFiveAreLowest(s: seq<Entry>)
    ensures multiset(BottomFive(s)) <= multiset(s)
    ensures forall x, y :: x in multiset(s) - multiset(BottomFive(s)) && y in BottomFive(s) ==> x.1 >= y.1
    ensures SortedAsc(BottomFive(s))
  {
    var t := SortAsc(s);
    SortAscCorrect(s);
    var k := |BottomFive(s)|;
    PrefixOfAscIsLowest(t, k);
    assert BottomFive(s) == t[..k];
    WholeLessPart(multiset(t[..k]), multiset(t[k..]));
  }

  /** The second half are the highest-scored entries. */
  lemma TopFiveAreHighest(s: seq<Entry>)
    ensures multiset(TopFive(s)) <= multiset(s)
    ensures forall x, y :: x in multiset(s) - multiset(TopFive(s)) && y in TopFive(s) ==> x.1 <= y.1
    ensures SortedAsc(TopFive(s))
  {
    var t := SortAsc(s);
    SortAscCorrect(s);
    var k := |t| - |TopFive(s)|;
    assert TopFive(s) == t[k..];
    SuffixOfAscIsHighest(t, k);
  }

  /** With fewer than ten skills the two halves share an entry, so a skill can be
      shown twice; from ten skills on they take distinct entries. */
  lemma SpiderHalvesOverlap(s: seq<Entry>)
    ensures 0 < |s| < 10 ==> exists e :: e in BottomFive(s) && e in TopFive(s)
    ensures |s| >= 10 ==> multiset(BottomFive(s)) + multiset(TopFive(s)) <= multiset(s)
  {
    var t := SortAsc(s);
    SortAscCorrect(s);
    SortAscLength(s);
    var n := |s|;
    if 0 < n < 10 {
      var k := if n < 5 then 0 else n - 5;
      assert t[k] in BottomFive(s);
      assert TopFive(s)[0] == t[k];
    } else if n >= 10 {
      assert t == t[..5] + t[5..n - 5] + t[n - 5..];
      assert BottomFive(s) == t[..5];
      assert TopFive(s) == t[n - 5..];
    }
  }

  /** `series[series > 6.5].sort_values(ascending=False)[:3]`. */
  function TopEntries(s: seq<Entry>): seq<Entry> {
    Take(SortDesc(Above(s, 6.5)), 3)
  }

  /** `series[series < 6.5].sort_values(ascending=True)[:3]`. */
  function BottomEntries(s: seq<Entry>): seq<Entry> {
    Take(SortAsc(Below(s, 6.5)), 3)
  }

  /** `_determine_top_and_bottom_skills`. */
  function TopAndBottomSkills(s: seq<Entry>): (seq<string>, seq<string>) {
    (Names(TopEntries(s)), Names(BottomEntries(s)))
  }

  /** The top skills: at most three, all above 6.5, highest first, taken from the
      series. */
  lemma TopEntriesShape(s: seq<Entry>)
    ensures |TopEntries(s)| == if |Above(s, 6.5)| < 3 then |Above(s, 6.5)| else 3
    ensures forall e :: e in TopEntries(s) ==> e in s && e.1 > 6.5
    ensures SortedDesc(TopEntries(s))
    ensures multiset(TopEntries(s)) <= multiset(s)
  {
    var a := Above(s, 6.5);
    var t := SortDesc(a);
    SortDescCorrect(a);
    SortDescLength(a);
    TakeOfSorted(t, 3);
    FilterSub(s, 6.5);
    SubTrans(Take(t, 3), t, a);
    SubTrans(Take(t, 3), a, s);
  }

  /** No entry above 6.5 that was left out of the top skills scores higher than one
      taken. */
  lemma TopEntriesAreHighest(s: seq<Entry>)
    ensures forall x, y :: x in multiset(s) - multiset(TopEntries(s)) && x.1 > 6.5 && y in TopEntries(s) ==> x.1 <= y.1
  {
    var a := Above(s, 6.5);
    var t := SortDesc(a);
    SortDescCorrect(a);
    var k := |TopEntries(s)|;
    PrefixOfDescIsHighest(t, k);
    assert TopEntries(s) == t[..k];
    forall x, y | x in multiset(s) - multiset(t[..k]) && x.1 > 6.5 && y in t[..k]
      ensures x.1 <= y.1
    {
      assert multiset(a)[x] == multiset(s)[x];
      assert x in multiset(t[k..]);
    }
  }

  /** The bottom skills: at most three, all below 6.5, lowest first, taken from the
      series. */
  lemma BottomEntriesShape(s: seq<Entry>)
    ensures |BottomEntries(s)| == if |Below(s, 6.5)| < 3 then |Below(s, 6.5)| else 3
    ensures forall e :: e in BottomEntries(s) ==> e in s && e.1 < 6.5
    ensures SortedAsc(BottomEntries(s))
    ensures multiset(BottomEntries(s)) <= multiset(s)
  {
    var b := Below(s, 6.5);
    var t := SortAsc(b);
    SortAscCorrect(b);
    SortAscLength(b);
    TakeOfSorted(t, 3);
    FilterSub(s, 6.5);
    SubTrans(Take(t, 3), t, b);
    SubTrans(Take(t, 3), b, s);
  }

  /** No entry below 6.5 that was left out of the bottom skills scores lower than one
      taken. */
  lemma BottomEntriesAreLowest(s: seq<Entry>)
    ensures forall x, y :: x in multiset(s) - multiset(BottomEntries(s)) && x.1 < 6.5 && y in BottomEntries(s) ==> x.1 >= y.1
  {
    var b := Below(s, 6.5);
    var t := SortAsc(b);
    SortAscCorrect(b);
    var k := |BottomEntries(s)|;
    PrefixOfAscIsLowest(t, k);
    assert BottomEntries(s) == t[..k];
    forall x, y | x in multiset(s) - multiset(t[..k]) && x.1 < 6.5 && y in t[..k]
      ensures x.1 >= y.1
    {
      assert multiset(b)[x] == multiset(s)[x];
      assert x in multiset(t[k..]);
    }
  }

  /** A skill scored exactly 6.5 is in neither list, and when the series has one
      entry per skill no skill is both a top and a bottom skill. */
  lemma TopAndBottomDisjoint(s: seq<Entry>)
    requires NoDup(Names(s))
    ensures forall e :: e in s && e.1 == 6.5 ==> e !in TopEntries(s) && e !in BottomEntries(s)
    ensures forall n :: n in TopAndBottomSkills(s).0 ==> n !in TopAndBottomSkills(s).1
  {
    TopEntriesShape(s);
    BottomEntriesShape(s);
    var top, bottom := TopEntries(s), BottomEntries(s);
    forall i, j | 0 <= i < |top| && 0 <= j < |bottom| ensures top[i].0 != bottom[j].0 {
      assert top[i] in top && bottom[j] in bottom;
      if top[i].0 == bottom[j].0 {
        NameDeterminesEntry(s, top[i], bottom[j]);
      }
    }
  }

  /** In a series with one entry per name, the name picks out the entry. */
  lemma NameDeterminesEntry(s: seq<Entry>, x: Entry, y: Entry)
    requires NoDup(Names(s)) && x in s && y in s && x.0 == y.0
    ensures x == y
  {
    var a :| 0 <= a < |s| && s[a] == x;
    var b :| 0 <= b < |s| && s[b] == y;
    assert Names(s)[a] == Names(s)[b];
  }

  /** `_get_text_for_top_and_bottom_skills`: nothing at all without a top skill (even
      when there are bottom skills); otherwise a copy of the text entry of every top
      and bottom skill, the first skill without an entry raising `KeyError`. */
  method TextForTopAndBottomSkills(top: seq<string>, bottom: seq<string>, table: Table)
    returns (r: Result<Table>)
    ensures top == [] ==> r == Ok([])
    ensures top != [] ==> (FirstMissing(top + bottom, table).None? <==> r.Ok?)
    ensures top != [] && r.Err? ==> r.error == KeyError((top + bottom)[FirstMissing(top + bottom, table).value])
    ensures top != [] && r.Ok? ==> Keys(r.value) == Unique(top + bottom) && NoDupKeys(r.value)
    ensures top != [] && r.Ok? ==> forall s :: s in top + bottom ==> Get(r.value, s) == Get(table, s)
  {
    if top == [] {
      return Ok([]);
    }
    r := CopyEntries(top + bottom, table);
  }

  /** `"_".join([name, company, date])` with the spaces of name and company replaced. */
  function ReportStem(candidate: seq<(Key, Value)>, date: string): Result<string> {
    var name :- Underscored(candidate, "name");
    var company :- Underscored(candidate, "company_name");
    Ok(name + "_" + company + "_" + date)
  }

  /** The rendered HTML report's file name. */
  function HtmlFileName(candidate: seq<(Key, Value)>, date: string): Result<string> {
    var stem :- ReportStem(candidate, date);
    Ok(stem + ".html")
  }

  /** The PDF report's file name. */
  function PdfFileName(candidate: seq<(Key, Value)>, date: string): (r: Result<string>)
    ensures r.Ok? <==> Underscored(candidate, "name").Ok? && Underscored(candidate, "company_name").Ok?
    ensures Get(candidate, StrKey("name")).None? ==> r == Err(KeyError("name"))
    ensures Underscored(candidate, "name").Ok? && Get(candidate, StrKey("company_name")).None? ==>
      r == Err(KeyError("company_name"))
    ensures r.Ok? ==>
      var name, company := Get(candidate, StrKey("name")).value.s, Get(candidate, StrKey("company_name")).value.s;
      r.value == ReplaceChar(name, ' ', '_') + "_" + ReplaceChar(company, ' ', '_') + "_" + date + ".pdf"
  {
    var stem :- ReportStem(candidate, date);
    Ok(stem + ".pdf")
  }

  /** The HTML and PDF files share one stem and differ only in their suffix; the stem
      has no space before the date, and fails the same way for both. */
  lemma FileNamesShareStem(candidate: seq<(Key, Value)>, date: string)
    ensures HtmlFileName(candidate, date).Ok? <==> PdfFileName(candidate, date).Ok?
    ensures HtmlFileName(candidate, date).Err? ==> HtmlFileName(candidate, date) == PdfFileName(candidate, date)
    ensures HtmlFileName(candidate, date).Ok? ==>
      var html, pdf := HtmlFileName(candidate, date).value, PdfFileName(candidate, date).value;
      |html| >= 5 + |date| && |pdf| >= 4 + |date| &&
      html[|html| - 5..] == ".html" && pdf[|pdf| - 4..] == ".pdf" &&
      html[..|html| - 5] == pdf[..|pdf| - 4] &&
      html[|html| - 5 - |date|..|html| - 5] == date &&
      forall i :: 0 <= i < |html| - 5 - |date| ==> html[i] != ' '
  {
  }
}
