/** The lookup both reports make in their skill-text table (a dictionary from skill
    name to a dictionary of text fields): the entry of every listed skill is copied
    into a new dictionary, and a skill without an entry raises `KeyError`. */
module SkillText {
  import opened Common
  import opened OrderedDict
  import opened PyValue

  /** One entry of the table: its text fields in order. */
  type Fields = seq<(Key, Value)>

  type Table = Dict<string, Fields>

  /** The first listed skill that has no entry in `table`, if any. */
  function FirstMissing(skills: seq<string>, table: Table): (m: Option<nat>)
    ensures m.Some? ==> m.value < |skills| && skills[m.value] !in Keys(table)
    ensures m.Some? ==> forall j :: 0 <= j < m.value ==> skills[j] in Keys(table)
    ensures m.None? ==> forall j :: 0 <= j < |skills| ==> skills[j] in Keys(table)
  {
    if skills == [] then None
    else if skills[0] !in Keys(table) then Some(0)
    else
      match FirstMissing(skills[1..], table)
      case None => None
      case Some(i) => Some(i + 1)
  }

  /** Storing the entry of the next listed skill keeps the result a copy of the table
      restricted to the skills listed so far. */
  lemma CopyStep(skills: seq<string>, i: nat, table: Table, out: Table, fields: Fields)
    requires i < |skills| && Get(table, skills[i]) == Some(fields)
    requires Keys(out) == Unique(skills[..i]) && NoDupKeys(out)
    requires forall s :: s in skills[..i] ==> Get(out, s) == Get(table, s)
    ensures Keys(Set(out, skills[i], fields)) == Unique(skills[..i + 1])
    ensures NoDupKeys(Set(out, skills[i], fields))
    ensures forall s :: s in skills[..i + 1] ==> Get(Set(out, skills[i], fields), s) == Get(table, s)
  {
    var skill := skills[i];
    var next := Set(out, skill, fields);
    assert skills[..i + 1][..i] == skills[..i];
    assert skills[..i + 1][i] == skill;
    GetSet(out, skill, fields, skill);
    forall s | s in skills[..i + 1] ensures Get(next, s) == Get(table, s) {
      GetSet(out, skill, fields, s);
      if s != skill {
        assert s in skills[..i];
      }
    }
  }

  lemma FirstMissingAt(skills: seq<string>, table: Table, i: nat)
    requires i < |skills| && skills[i] !in Keys(table)
    requires forall j :: 0 <= j < i ==> skills[j] in Keys(table)
    ensures FirstMissing(skills, table) == Some(i)
  {
  }

  /** `for skill in skills: out[skill] = {k: v for k, v in table[skill].items()}`:
      the result has one key per distinct listed skill, in the order of first listing,
      each mapped to a copy of its entry; the first skill without an entry raises. */
  method CopyEntries(skills: seq<string>, table: Table) returns (r: Result<Table>)
    ensures FirstMissing(skills, table).None? <==> r.Ok?
    ensures r.Err? ==> r.error == KeyError(skills[FirstMissing(skills, table).value])
    ensures r.Ok? ==> Keys(r.value) == Unique(skills) && NoDupKeys(r.value)
    ensures r.Ok? ==> forall s :: s in skills ==> Get(r.value, s) == Get(table, s)
  {
    var out: Table := [];
    var i := 0;
    while i < |skills|
      invariant 0 <= i <= |skills|
      invariant forall j :: 0 <= j < i ==> skills[j] in Keys(table)
      invariant Keys(out) == Unique(skills[..i]) && NoDupKeys(out)
      invariant forall s :: s in skills[..i] ==> Get(out, s) == Get(table, s)
    {
      var skill := skills[i];
      match Get(table, skill)
      case None =>
        FirstMissingAt(skills, table, i);
        return Err(KeyError(skill));
      case Some(fields) =>
        CopyStep(skills, i, table, out, fields);
        out := Set(out, skill, fields);
        i := i + 1;
    }
    assert skills[..i] == skills;
    return Ok(out);
  }
}
