/** The builder of the leadership lexicon: the rows of the report-text CSV after the
    header give the focus-area table (every focus area with the skills of its rows) and
    the skill table (every skill with its text fields, the columns from the sixth on
    broken into sentences and filed under their header names). */
module LeadershipParser {
  import opened Common
  import opened Text
  import opened OrderedDict
  import opened Sentences

  /** A value of a skill's entry: a text cell kept as it is, or the sentences of a
      sentence column. */
  datatype Field = Verbatim(text: string) | Listed(sentences: seq<string>)

  /** One skill's entry: a single dictionary holding the three text cells and the
      sentence lists filed under the header names of the remaining columns. */
  type SkillFields = Dict<string, Field>

  const DescriptionKey := "description"
  const StrengthKey := "Overview-Performance strength"
  const ImprovementKey := "Overview-Improvement Opportunities"

  /** The keys of the three text cells, in the order the row assigns them. */
  const FixedKeys := [DescriptionKey, StrengthKey, ImprovementKey]

  lemma FixedKeysDistinct()
    ensures NoDup(FixedKeys)
  {
    assert DescriptionKey[0] != StrengthKey[0] && DescriptionKey[0] != ImprovementKey[0];
    assert StrengthKey[9] != ImprovementKey[9];
  }

  /** `header[5:]`: the names of the sentence columns. */
  function SectionNames(header: seq<string>): (names: seq<string>)
    ensures |names| == if |header| <= 5 then 0 else |header| - 5
    ensures forall i :: 0 <= i < |names| ==> names[i] == header[5 + i]
  {
    if |header| <= 5 then [] else header[5..]
  }

  /** Each sentence cell with the name of its column. */
  function Zip(names: seq<string>, cells: seq<string>): (pairs: seq<(string, string)>)
    requires |cells| <= |names|
    ensures |pairs| == |cells|
    ensures forall i :: 0 <= i < |cells| ==> pairs[i] == (names[i], cells[i])
  {
    seq(|cells|, i requires 0 <= i < |cells| => (names[i], cells[i]))
  }

  /** A column's name with the sentences of its cell. */
  function Filed(p: (string, string)): (string, Field) {
    (p.0, Listed(BreakSentence(p.1)))
  }

  function SectionPairs(names: seq<string>, cells: seq<string>): seq<(string, Field)>
    requires |cells| <= |names|
  {
    MapSeq(Filed, Zip(names, cells))
  }

  /** The three text cells under their keys. */
  function FixedPairs(row: seq<string>): seq<(string, Field)>
    requires |row| >= 5
  {
    [(DescriptionKey, Verbatim(row[2])), (StrengthKey, Verbatim(row[3])), (ImprovementKey, Verbatim(row[4]))]
  }

  /** Every assignment one row makes to its skill's entry, in order: the three text
      cells, then each sentence column under its name. */
  function FieldPairs(names: seq<string>, row: seq<string>): seq<(string, Field)>
    requires 5 <= |row| <= 5 + |names|
  {
    FixedPairs(row) + SectionPairs(names, row[5..])
  }

  /** `skills_dict[row[1]] = {}`, the three text cells, then every sentence column.
      A row with fewer than five cells, or with more cells than the header names,
      raises `IndexError`. */
  method SkillDict(names: seq<string>, row: seq<string>) returns (r: Result<SkillFields>)
    ensures r.Ok? <==> 5 <= |row| <= 5 + |names|
    ensures r.Err? ==> r.error == IndexError
    ensures r.Ok? ==> r.value == Assign(FieldPairs(names, row))
  {
    if |row| < 5 {
      return Err(IndexError);
    }
    var d: SkillFields := [];
    d := Set(d, DescriptionKey, Verbatim(row[2]));
    d := Set(d, StrengthKey, Verbatim(row[3]));
    d := Set(d, ImprovementKey, Verbatim(row[4]));
    FixedStep(row);
    r := Sections(d, FixedPairs(row), names, row[5..]);
  }

  lemma FixedStep(row: seq<string>)
    requires |row| >= 5
    ensures Set(Set(Set([], DescriptionKey, Verbatim(row[2])), StrengthKey, Verbatim(row[3])), ImprovementKey, Verbatim(row[4]))
         == Assign(FixedPairs(row))
  {
    var f := FixedPairs(row);
    AssignAppend([], DescriptionKey, Verbatim(row[2]));
    assert [] + [f[0]] == f[..1] && f[..1] + [f[1]] == f[..2] && f[..2] + [f[2]] == f;
    AssignAppend(f[..1], StrengthKey, Verbatim(row[3]));
    AssignAppend(f[..2], ImprovementKey, Verbatim(row[4]));
  }

  /** The sentence columns of one row, filed column by column into the entry `d`
      that the assignments `fixed` made: `d[name] = []`, then every sentence appended.
      A sentence column whose name is already a key overwrites its value. A row with
      more cells than there are names raises `IndexError`. */
  method Sections(d0: SkillFields, ghost fixed: seq<(string, Field)>, names: seq<string>, cells: seq<string>)
    returns (r: Result<SkillFields>)
    requires d0 == Assign(fixed)
    ensures r.Ok? <==> |cells| <= |names|
    ensures r.Err? ==> r.error == IndexError
    ensures r.Ok? ==> r.value == Assign(fixed + SectionPairs(names, cells))
  {
    var d := d0;
    var i := 0;
    assert fixed + SectionPairs(names, cells[..0]) == fixed;
    while i < |cells|
      invariant i <= |cells| && i <= |names|
      invariant d == Assign(fixed + SectionPairs(names, cells[..i]))
    {
      if i >= |names| {
        assert |cells| > |names|;
        return Err(IndexError);
      }
      var list := AppendEach(BreakSentence(cells[i]));
      SectionStep(fixed, names, cells, i);
      d := Set(d, names[i], Listed(list));
      assert d == Assign(fixed + SectionPairs(names, cells[..i + 1]));
      i := i + 1;
    }
    assert cells[..i] == cells;
    return Ok(d);
  }

  /** `for sentence in sentences: d[name].append(sentence)` on a fresh list. */
  method AppendEach(sentences: seq<string>) returns (list: seq<string>)
    ensures list == sentences
  {
    list := [];
    var j := 0;
    while j < |sentences|
      invariant j <= |sentences| && list == sentences[..j]
    {
      assert sentences[..j + 1] == sentences[..j] + [sentences[j]];
      list := list + [sentences[j]];
      j := j + 1;
    }
  }

  lemma SectionStep(fixed: seq<(string, Field)>, names: seq<string>, cells: seq<string>, i: nat)
    requires i < |cells| && i < |names|
    ensures Assign(fixed + SectionPairs(names, cells[..i + 1]))
         == Set(Assign(fixed + SectionPairs(names, cells[..i])), names[i], Listed(BreakSentence(cells[i])))
  {
    SectionPairsStep(names, cells, i);
    AssignAfter(fixed, SectionPairs(names, cells[..i]), names[i], Listed(BreakSentence(cells[i])));
  }

  lemma SectionPairsStep(names: seq<string>, cells: seq<string>, i: nat)
    requires i < |cells| && i < |names|
    ensures SectionPairs(names, cells[..i + 1])
         == SectionPairs(names, cells[..i]) + [(names[i], Listed(BreakSentence(cells[i])))]
  {
    var z := Zip(names, cells[..i]);
    assert Zip(names, cells[..i + 1]) == z + [(names[i], cells[i])];
    MapSeqAppend(Filed, z, (names[i], cells[i]));
  }

  lemma AssignAfter(fixed: seq<(string, Field)>, xs: seq<(string, Field)>, k: string, v: Field)
    ensures Assign(fixed + (xs + [(k, v)])) == Set(Assign(fixed + xs), k, v)
  {
    assert fixed + (xs + [(k, v)]) == (fixed + xs) + [(k, v)];
    AssignAppend(fixed + xs, k, v);
  }

  /** What one row gives: its focus area, its skill and the skill's entry. The row
      needs the five leading cells and no more sentence cells than there are names. */
  function RowFields(names: seq<string>, row: seq<string>): (r: Result<(string, string, SkillFields)>)
    ensures r.Ok? <==> 5 <= |row| <= 5 + |names|
    ensures r.Err? ==> r.error == IndexError
    ensures r.Ok? ==> r.value.0 == row[0] && r.value.1 == row[1]
  {
    if |row| < 5 || |row| - 5 > |names| then Err(IndexError)
    else Ok((row[0], row[1], Assign(FieldPairs(names, row))))
  }

  /** The assignments of one row, position by position. */
  lemma FieldPairsAt(names: seq<string>, row: seq<string>)
    requires 5 <= |row| <= 5 + |names|
    ensures |FieldPairs(names, row)| == |row| - 2
    ensures forall c :: 0 <= c < 3 ==> FieldPairs(names, row)[c] == (FixedKeys[c], Verbatim(row[2 + c]))
    ensures forall i :: 0 <= i < |row| - 5 ==>
      FieldPairs(names, row)[3 + i] == (names[i], Listed(BreakSentence(row[5 + i])))
  {
    forall c | 0 <= c < 3 ensures FieldPairs(names, row)[c] == (FixedKeys[c], Verbatim(row[2 + c])) {
      FixedPairAt(names, row, c);
    }
    forall i | 0 <= i < |row| - 5 ensures FieldPairs(names, row)[3 + i] == (names[i], Listed(BreakSentence(row[5 + i]))) {
      SectionPairAt(names, row, i);
    }
  }

  lemma SectionPairAt(names: seq<string>, row: seq<string>, i: nat)
    requires 5 <= |row| <= 5 + |names| && i < |row| - 5
    ensures FieldPairs(names, row)[3 + i] == (names[i], Listed(BreakSentence(row[5 + i])))
  {
    var cells := row[5..];
    assert cells[i] == row[5 + i];
    SectionPairsAt(names, cells, i);
    FixedPairsLength(row);
    PairAfterFixed(FieldPairs(names, row), FixedPairs(row), SectionPairs(names, cells), i,
                   (names[i], Listed(BreakSentence(row[5 + i]))));
  }

  lemma PairAfterFixed<T>(all: seq<T>, fixed: seq<T>, rest: seq<T>, i: nat, v: T)
    requires all == fixed + rest && |fixed| == 3 && i < |rest| && rest[i] == v
    ensures all[3 + i] == v
  {
    ConcatAt(fixed, rest, i);
  }

  lemma SectionPairsAt(names: seq<string>, cells: seq<string>, i: nat)
    requires |cells| <= |names| && i < |cells|
    ensures SectionPairs(names, cells)[i] == (names[i], Listed(BreakSentence(cells[i])))
  {
    var z := Zip(names, cells);
    assert z[i] == (names[i], cells[i]);
    assert SectionPairs(names, cells)[i] == Filed(z[i]);
  }

  lemma FixedPairsLength(row: seq<string>)
    requires |row| >= 5
    ensures |FixedPairs(row)| == 3
  {
  }

  lemma ConcatAt<T>(a: seq<T>, b: seq<T>, i: nat)
    requires i < |b|
    ensures (a + b)[|a| + i] == b[i]
  {
  }

  lemma FixedPairAt(names: seq<string>, row: seq<string>, c: nat)
    requires 5 <= |row| <= 5 + |names| && c < 3
    ensures FieldPairs(names, row)[c] == (FixedKeys[c], Verbatim(row[2 + c]))
  {
    var f := FixedPairs(row);
    assert FieldPairs(names, row)[c] == f[c];
    if c == 0 {
    } else if c == 1 {
    } else {
    }
  }

  /** Assignments of the shape one row makes: three text values under the keys
      `fixed`, then sentence lists under the names `ns`. */
  predicate Shaped(pairs: seq<(string, Field)>, fixed: seq<string>, ns: seq<string>) {
    && |fixed| == 3 && |pairs| == 3 + |ns|
    && (forall c :: 0 <= c < 3 ==> pairs[c].0 == fixed[c] && pairs[c].1.Verbatim?)
    && (forall i :: 0 <= i < |ns| ==> pairs[3 + i].0 == ns[i] && pairs[3 + i].1.Listed?)
  }

  lemma RowShaped(names: seq<string>, row: seq<string>)
    requires 5 <= |row| <= 5 + |names|
    ensures Shaped(FieldPairs(names, row), FixedKeys, names[..|row| - 5])
  {
    FieldPairsAt(names, row);
  }

  lemma ShapedKeys(pairs: seq<(string, Field)>, fixed: seq<string>, ns: seq<string>)
    requires Shaped(pairs, fixed, ns)
    ensures Keys(pairs) == fixed + ns
  {
    var ks := Keys(pairs);
    assert forall c :: 0 <= c < 3 ==> ks[c] == fixed[c];
    assert forall i :: 0 <= i < |ns| ==> ks[3 + i] == ns[i];
  }

  lemma ShapedMembers(pairs: seq<(string, Field)>, fixed: seq<string>, names: seq<string>, n: nat, name: string)
    requires n <= |names| && Shaped(pairs, fixed, names[..n])
    ensures name in Keys(Assign(pairs)) <==> name in fixed || exists i :: 0 <= i < n && names[i] == name
  {
    var ns := names[..n];
    ShapedKeys(pairs, fixed, ns);
    assert forall i :: 0 <= i < n ==> ns[i] == names[i];
  }

  lemma ShapedFirst(pairs: seq<(string, Field)>, fixed: seq<string>, ns: seq<string>)
    requires Shaped(pairs, fixed, ns) && NoDup(fixed)
    ensures |Assign(pairs)| >= 3 && Keys(Assign(pairs))[..3] == fixed
  {
    ShapedKeys(pairs, fixed, ns);
    UniqueKeepsPrefix(fixed, ns);
  }

  lemma ShapedFixedKept(pairs: seq<(string, Field)>, fixed: seq<string>, ns: seq<string>, c: nat)
    requires Shaped(pairs, fixed, ns) && NoDup(fixed) && c < 3 && fixed[c] !in ns
    ensures Get(Assign(pairs), fixed[c]) == Some(pairs[c].1)
  {
    ShapedKeys(pairs, fixed, ns);
    var ks := Keys(pairs);
    forall j | c < j < |pairs| ensures ks[j] != ks[c] {
      if j >= 3 {
        assert ks[j] == ns[j - 3];
      }
    }
    LastAssignedAt(pairs, c);
  }

  lemma ShapedSectionKept(pairs: seq<(string, Field)>, fixed: seq<string>, ns: seq<string>, i: nat)
    requires Shaped(pairs, fixed, ns) && i < |ns|
    requires forall j :: i < j < |ns| ==> ns[j] != ns[i]
    ensures Get(Assign(pairs), ns[i]) == Some(pairs[3 + i].1)
  {
    ShapedKeys(pairs, fixed, ns);
    var ks := Keys(pairs);
    assert ks[3 + i] == ns[i];
    forall j | 3 + i < j < |pairs| ensures ks[j] != ks[3 + i] {
      assert ks[j] == ns[j - 3];
    }
    LastAssignedAt(pairs, 3 + i);
  }

  lemma ShapedStoredList(pairs: seq<(string, Field)>, fixed: seq<string>, ns: seq<string>, k: nat) returns (m: nat)
    requires Shaped(pairs, fixed, ns) && k < |Assign(pairs)| && Assign(pairs)[k].1.Listed?
    ensures 3 <= m < |pairs| && Assign(pairs)[k] == pairs[m]
  {
    AssignStored(pairs, k);
    m :| 0 <= m < |pairs| && pairs[m] == Assign(pairs)[k];
  }

  /** The entry begins with the three text keys, in order. Each holds its cell as it
      stands unless a sentence column of the same name follows, in which case
      `RowFieldsSections` gives its value; and the area and the skill are the first
      two cells. */
  lemma RowFieldsCells(names: seq<string>, row: seq<string>, c: nat)
    requires RowFields(names, row).Ok? && c < 3
    ensures
      var (area, skill, f) := RowFields(names, row).value;
      && area == row[0] && skill == row[1]
      && |f| >= 3 && Keys(f)[..3] == FixedKeys
      && ((forall i :: 0 <= i < |row| - 5 ==> names[i] != FixedKeys[c]) ==>
            Get(f, FixedKeys[c]) == Some(Verbatim(row[2 + c])))
  {
    RowEntry(names, row);
    var pairs := FieldPairs(names, row);
    var ns := names[..|row| - 5];
    RowShaped(names, row);
    FixedKeysDistinct();
    ShapedFirst(pairs, FixedKeys, ns);
    if forall i :: 0 <= i < |row| - 5 ==> names[i] != FixedKeys[c] {
      assert FixedKeys[c] !in ns;
      ShapedFixedKept(pairs, FixedKeys, ns, c);
      FixedPairAt(names, row, c);
    }
  }

  /** A key is in the entry exactly when it is a text key or names a sentence cell of
      the row. */
  lemma RowFieldsKeys(names: seq<string>, row: seq<string>, name: string)
    requires RowFields(names, row).Ok?
    ensures name in Keys(RowFields(names, row).value.2) <==>
      name in FixedKeys || exists i :: 0 <= i < |row| - 5 && names[i] == name
  {
    RowEntry(names, row);
    RowShaped(names, row);
    ShapedMembers(FieldPairs(names, row), FixedKeys, names, |row| - 5, name);
  }

  /** The name of a sentence cell holds the sentences of the last cell of that name,
      also when it is one of the three text keys. */
  lemma RowFieldsSections(names: seq<string>, row: seq<string>, name: string)
    requires RowFields(names, row).Ok?
    requires exists i :: 0 <= i < |row| - 5 && names[i] == name
    ensures exists i :: (
      && 0 <= i < |row| - 5 && names[i] == name
      && Get(RowFields(names, row).value.2, name) == Some(Listed(BreakSentence(row[5 + i])))
      && forall j :: i < j < |row| - 5 ==> names[j] != name)
  {
    RowEntry(names, row);
    RowShaped(names, row);
    var i := LastNamed(names, |row| - 5, name);
    ShapedSectionKept(FieldPairs(names, row), FixedKeys, names[..|row| - 5], i);
    SectionPairAt(names, row, i);
  }

  /** The last of the first `n` names that is `name`. */
  lemma LastNamed(names: seq<string>, n: nat, name: string) returns (i: nat)
    requires n <= |names| && exists i :: 0 <= i < n && names[i] == name
    ensures i < n && names[i] == name && names[..n][i] == name
    ensures forall j :: i < j < n ==> names[j] != name && names[..n][j] != names[..n][i]
  {
    var ns := names[..n];
    var i0 :| 0 <= i0 < n && names[i0] == name;
    assert ns[i0] == name;
    i := LastIndexOf(ns, name);
    assert forall j :: 0 <= j < n ==> ns[j] == names[j];
  }

  lemma RowEntry(names: seq<string>, row: seq<string>)
    requires RowFields(names, row).Ok?
    ensures 5 <= |row| <= 5 + |names|
    ensures RowFields(names, row).value.2 == Assign(FieldPairs(names, row))
  {
  }

  /** Every filed sentence is stripped and non-blank. */
  lemma RowFieldsSentences(names: seq<string>, row: seq<string>, k: nat, x: string)
    requires RowFields(names, row).Ok?
    requires k < |RowFields(names, row).value.2|
    requires RowFields(names, row).value.2[k].1.Listed?
    requires x in RowFields(names, row).value.2[k].1.sentences
    ensures x != [] && Stripped(x)
  {
    RowEntry(names, row);
    RowShaped(names, row);
    RowListsStripped(names, row);
    ShapedAllStripped(FieldPairs(names, row), FixedKeys, names[..|row| - 5], k, x);
  }

  predicate AllStripped(sentences: seq<string>) {
    forall x :: x in sentences ==> x != [] && Stripped(x)
  }

  lemma RowListsStripped(names: seq<string>, row: seq<string>)
    requires 5 <= |row| <= 5 + |names|
    ensures forall m :: 3 <= m < |FieldPairs(names, row)| ==>
      FieldPairs(names, row)[m].1.Listed? && AllStripped(FieldPairs(names, row)[m].1.sentences)
  {
    var cells := row[5..];
    var sec := SectionPairs(names, cells);
    forall i | 0 <= i < |sec| ensures sec[i].1.Listed? && AllStripped(sec[i].1.sentences) {
      assert sec[i] == Filed(Zip(names, cells)[i]);
    }
    FixedPairsLength(row);
    ListsAfterFixed(FieldPairs(names, row), FixedPairs(row), sec);
  }

  lemma ListsAfterFixed(pairs: seq<(string, Field)>, front: seq<(string, Field)>, sec: seq<(string, Field)>)
    requires pairs == front + sec && |front| == 3
    requires forall i :: 0 <= i < |sec| ==> sec[i].1.Listed? && AllStripped(sec[i].1.sentences)
    ensures forall m :: 3 <= m < |pairs| ==> pairs[m].1.Listed? && AllStripped(pairs[m].1.sentences)
  {
    assert forall m :: 3 <= m < |pairs| ==> pairs[m] == sec[m - 3];
  }

  lemma ShapedAllStripped(pairs: seq<(string, Field)>, fixed: seq<string>, ns: seq<string>, k: nat, x: string)
    requires Shaped(pairs, fixed, ns)
    requires forall m :: 3 <= m < |pairs| ==> pairs[m].1.Listed? && AllStripped(pairs[m].1.sentences)
    requires k < |Assign(pairs)| && Assign(pairs)[k].1.Listed? && x in Assign(pairs)[k].1.sentences
    ensures x != [] && Stripped(x)
  {
    var m := ShapedStoredList(pairs, fixed, ns, k);
    assert AllStripped(pairs[m].1.sentences);
  }

  /** The results of the rows after the header, in order. */
  function Parsed(header: seq<string>, rows: seq<seq<string>>): seq<Result<(string, string, SkillFields)>> {
    MapSeq((row: seq<string>) => RowFields(SectionNames(header), row), rows)
  }

  /** The (focus area, skill) and (skill, fields) pairs of the parsed rows. */
  function AreaPairs(ts: seq<(string, string, SkillFields)>): seq<(string, string)> {
    MapSeq((t: (string, string, SkillFields)) => (t.0, t.1), ts)
  }

  function SkillPairs(ts: seq<(string, string, SkillFields)>): seq<(string, SkillFields)> {
    MapSeq((t: (string, string, SkillFields)) => (t.1, t.2), ts)
  }

  /** `parse_data` on the CSV's lines: the first line is the header (a file without
      one raises `StopIteration`); every further row appends its skill to its focus
      area's list and assigns its skill's fields. The first row that does not fit
      raises `IndexError`. */
  method ParseData(lines: seq<seq<string>>)
    returns (r: Result<(Dict<string, seq<string>>, Dict<string, SkillFields>)>)
    ensures lines == [] ==> r == Err(StopIteration)
    ensures r.Ok? <==> lines != [] && AllOk(Parsed(lines[0], lines[1..]))
    ensures r.Err? && lines != [] ==> r.error == IndexError
    ensures r.Ok? ==> Grouped(r.value.0, AreaPairs(Unwrapped(Parsed(lines[0], lines[1..]))))
    ensures r.Ok? ==> r.value.1 == Assign(SkillPairs(Unwrapped(Parsed(lines[0], lines[1..]))))
  {
    if lines == [] {
      return Err(StopIteration);
    }
    var header, rows := lines[0], lines[1..];
    var names := SectionNames(header);
    var areas: Dict<string, seq<string>> := [];
    var skills: Dict<string, SkillFields> := [];
    var i := 0;
    while i < |rows|
      invariant i <= |rows|
      invariant AllOk(Parsed(header, rows[..i]))
      invariant Grouped(areas, AreaPairs(Unwrapped(Parsed(header, rows[..i]))))
      invariant skills == Assign(SkillPairs(Unwrapped(Parsed(header, rows[..i]))))
    {
      var row := rows[i];
      assert Parsed(header, rows)[i] == RowFields(names, row);
      if |row| < 2 {
        return Err(IndexError);
      }
      ghost var done := Unwrapped(Parsed(header, rows[..i]));
      GroupAppend(areas, AreaPairs(done), row[0], row[1]);
      if row[0] !in Keys(areas) {
        areas := Set(areas, row[0], []);
      }
      areas := Set(areas, row[0], Get(areas, row[0]).value + [row[1]]);
      var entry := SkillDict(names, row);
      if entry.Err? {
        return Err(entry.error);
      }
      var fields := entry.value;
      assert RowFields(names, row) == Ok((row[0], row[1], fields));
      RowStep(header, rows, i);
      skills := Set(skills, row[1], fields);
      i := i + 1;
    }
    assert rows[..i] == rows;
    r := Ok((areas, skills));
  }

  lemma RowStep(header: seq<string>, rows: seq<seq<string>>, i: nat)
    requires i < |rows| && AllOk(Parsed(header, rows[..i]))
    requires RowFields(SectionNames(header), rows[i]).Ok?
    ensures AllOk(Parsed(header, rows[..i + 1]))
    ensures
      var t := RowFields(SectionNames(header), rows[i]).value;
      && Unwrapped(Parsed(header, rows[..i + 1])) == Unwrapped(Parsed(header, rows[..i])) + [t]
      && AreaPairs(Unwrapped(Parsed(header, rows[..i + 1]))) == AreaPairs(Unwrapped(Parsed(header, rows[..i]))) + [(t.0, t.1)]
      && Assign(SkillPairs(Unwrapped(Parsed(header, rows[..i + 1]))))
         == Set(Assign(SkillPairs(Unwrapped(Parsed(header, rows[..i])))), t.1, t.2)
  {
    var f := (row: seq<string>) => RowFields(SectionNames(header), row);
    var t := RowFields(SectionNames(header), rows[i]).value;
    MapSeqStep(f, rows, i);
    var done := Unwrapped(Parsed(header, rows[..i]));
    UnwrappedStep(Parsed(header, rows[..i]), t);
    MapSeqAppend((t: (string, string, SkillFields)) => (t.0, t.1), done, t);
    MapSeqAppend((t: (string, string, SkillFields)) => (t.1, t.2), done, t);
    AssignAppend(SkillPairs(done), t.1, t.2);
  }

  /** A skill named by several rows keeps the fields of the last of them, while its
      focus area lists it once per row. */
  lemma RepeatedSkill(ts: seq<(string, string, SkillFields)>, area: string, skill: string)
    ensures Get(Assign(SkillPairs(ts)), skill).Some? ==>
      exists i :: 0 <= i < |ts| && ts[i].1 == skill && Get(Assign(SkillPairs(ts)), skill).value == ts[i].2
          && forall j :: i < j < |ts| ==> ts[j].1 != skill
    ensures |ValuesOf(AreaPairs(ts), area)| == multiset(Keys(AreaPairs(ts)))[area]
    ensures skill in ValuesOf(AreaPairs(ts), area) <==> exists i :: 0 <= i < |ts| && ts[i].0 == area && ts[i].1 == skill
  {
    LastSkillRowWins(ts, skill);
    AreaListsItsRows(ts, area, skill);
  }

  lemma LastSkillRowWins(ts: seq<(string, string, SkillFields)>, skill: string)
    ensures Get(Assign(SkillPairs(ts)), skill).Some? ==>
      exists i :: 0 <= i < |ts| && ts[i].1 == skill && Get(Assign(SkillPairs(ts)), skill).value == ts[i].2
          && forall j :: i < j < |ts| ==> ts[j].1 != skill
  {
    var sp := SkillPairs(ts);
    AssignGet(sp, skill);
    assert forall i :: 0 <= i < |ts| ==> Keys(sp)[i] == ts[i].1;
    if skill in Keys(sp) {
      var i := LastIndexOf(Keys(sp), skill);
      assert sp[i].1 == ts[i].2;
    }
  }

  lemma AreaListsItsRows(ts: seq<(string, string, SkillFields)>, area: string, skill: string)
    ensures skill in ValuesOf(AreaPairs(ts), area) <==> exists i :: 0 <= i < |ts| && ts[i].0 == area && ts[i].1 == skill
  {
    var ap := AreaPairs(ts);
    if (area, skill) in ap {
      var i :| 0 <= i < |ap| && ap[i] == (area, skill);
      assert ts[i].0 == area && ts[i].1 == skill;
    }
    if exists i :: 0 <= i < |ts| && ts[i].0 == area && ts[i].1 == skill {
      var i :| 0 <= i < |ts| && ts[i].0 == area && ts[i].1 == skill;
      assert ap[i] == (area, skill);
    }
  }
}
