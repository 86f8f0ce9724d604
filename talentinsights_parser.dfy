/** The builder of the talent-insights lexicon: every row of the report-text CSV after
    the header becomes the entry of its skill, with the text cells broken into
    sentences. */
module TalentInsightsParser {
  import opened Common
  import opened Text
  import opened OrderedDict
  import opened Sentences

  /** A text cell as sentences, the first one apart: `{"Summary": ..., "Details": ...}`
      for the strength and development texts, `{"Initial": ..., "Details": ...}` for a
      set of interview questions. */
  datatype Part = Part(first: string, details: seq<string>)

  /** One lexicon entry. */
  datatype Entry = Entry(definition: string, strength: Part, development: Part, questions: seq<Part>)

  /** `s = break_sentence(text); first = s.pop(0)`: popping from an empty list raises. */
  function FirstAndRest(text: string): (r: Result<Part>)
    ensures r.Ok? <==> BreakSentence(text) != []
    ensures r.Err? ==> r.error == IndexError
    ensures r.Ok? ==> [r.value.first] + r.value.details == BreakSentence(text)
  {
    Popped(BreakSentence(text))
  }

  /** `first = s.pop(0)` on a list of sentences. */
  function Popped(sentences: seq<string>): (r: Result<Part>)
    ensures r.Ok? <==> sentences != []
    ensures r.Err? ==> r.error == IndexError
    ensures r.Ok? ==> [r.value.first] + r.value.details == sentences
  {
    if sentences == [] then Err(IndexError)
    else
      assert [sentences[0]] + sentences[1..] == sentences;
      Ok(Part(sentences[0], sentences[1..]))
  }

  /** `row[i]`. */
  function Cell(row: seq<string>, i: nat): (r: Result<string>)
    ensures r.Ok? <==> i < |row|
    ensures r.Ok? ==> r.value == row[i]
    ensures r.Err? ==> r.error == IndexError
  {
    if i < |row| then Ok(row[i]) else Err(IndexError)
  }

  /** `break_sentence(row[c])` and its first sentence popped off. */
  function PartAt(row: seq<string>, c: nat): (r: Result<Part>)
    ensures r.Ok? <==> HasSentences(row, c)
    ensures r.Err? ==> r.error == IndexError
    ensures r.Ok? ==> [r.value.first] + r.value.details == BreakSentence(row[c])
  {
    var text :- Cell(row, c);
    FirstAndRest(text)
  }

  predicate HasSentences(row: seq<string>, c: nat) {
    c < |row| && BreakSentence(row[c]) != []
  }

  /** The key and entry one row gives: the key is the lower-cased skill name, the
      definition is column 1 as it stands, the strength and development texts are
      columns 2 and 3, and the two sets of interview questions are columns 4 and 5. */
  function RowEntry(row: seq<string>): (r: Result<(string, Entry)>)
  {
    var name :- Cell(row, 0);
    var definition :- Cell(row, 1);
    var strength :- PartAt(row, 2);
    var development :- PartAt(row, 3);
    var first :- PartAt(row, 4);
    var second :- PartAt(row, 5);
    Ok((Lower(name), Entry(definition, strength, development, [first, second])))
  }

  /** A row needs six cells, and every text cell from column 2 on at least one
      sentence; anything less raises `IndexError`. The parts lose no sentence. */
  lemma RowEntryShape(row: seq<string>)
    ensures RowEntry(row).Ok? <==>
      HasSentences(row, 2) && HasSentences(row, 3) && HasSentences(row, 4) && HasSentences(row, 5)
    ensures RowEntry(row).Err? ==> RowEntry(row).error == IndexError
    ensures RowEntry(row).Ok? ==>
      var (key, e) := RowEntry(row).value;
      && key == Lower(row[0])
      && e.definition == row[1]
      && [e.strength.first] + e.strength.details == BreakSentence(row[2])
      && [e.development.first] + e.development.details == BreakSentence(row[3])
      && |e.questions| == 2
      && [e.questions[0].first] + e.questions[0].details == BreakSentence(row[4])
      && [e.questions[1].first] + e.questions[1].details == BreakSentence(row[5])
  {
  }

  /** The result of every row, in row order. */
  function Parsed(rows: seq<seq<string>>): seq<Result<(string, Entry)>> {
    MapSeq(RowEntry, rows)
  }

  /** `parse_data` on the CSV's lines: the header line is skipped (a file without one
      raises `StopIteration`), and every further row assigns its entry under its key;
      the first row that does not parse raises. */
  method ParseData(lines: seq<seq<string>>) returns (r: Result<Dict<string, Entry>>)
    ensures lines == [] ==> r == Err(StopIteration)
    ensures r.Ok? <==> lines != [] && AllOk(Parsed(lines[1..]))
    ensures r.Err? && lines != [] ==> r.error == IndexError
    ensures r.Ok? ==> r.value == Assign(Unwrapped(Parsed(lines[1..])))
  {
    if lines == [] {
      return Err(StopIteration);
    }
    var rows := lines[1..];
    var skills: Dict<string, Entry> := [];
    var i := 0;
    while i < |rows|
      invariant i <= |rows|
      invariant AllOk(Parsed(rows[..i])) && skills == Assign(Unwrapped(Parsed(rows[..i])))
    {
      var row := rows[i];
      RowEntryShape(row);
      var e := RowEntry(row);
      if e.Err? {
        assert Parsed(rows)[i] == e;
        return Err(e.error);
      }
      var (key, entry) := e.value;
      MapSeqStep(RowEntry, rows, i);
      UnwrappedStep(Parsed(rows[..i]), (key, entry));
      AssignAppend(Unwrapped(Parsed(rows[..i])), key, entry);
      skills := Set(skills, key, entry);
      i := i + 1;
    }
    assert rows[..i] == rows;
    r := Ok(skills);
  }

  /** Rows whose skill names agree once lower-cased share one entry, the last one's,
      kept at the place of the first. */
  lemma LastRowWins(rows: seq<seq<string>>, key: string)
    requires AllOk(Parsed(rows))
    ensures key in Keys(Assign(Unwrapped(Parsed(rows)))) <==>
      exists i :: 0 <= i < |rows| && Lower(rows[i][0]) == key
    ensures Get(Assign(Unwrapped(Parsed(rows))), key).Some? ==>
      exists i :: 0 <= i < |rows| && Get(Assign(Unwrapped(Parsed(rows))), key).value == RowEntry(rows[i]).value.1
          && Lower(rows[i][0]) == key
          && forall j :: i < j < |rows| ==> Lower(rows[j][0]) != key
  {
    var pairs := Unwrapped(Parsed(rows));
    AssignGet(pairs, key);
    forall i | 0 <= i < |rows| ensures pairs[i] == RowEntry(rows[i]).value && Keys(pairs)[i] == Lower(rows[i][0]) {
      assert Parsed(rows)[i] == RowEntry(rows[i]);
      RowEntryShape(rows[i]);
    }
    if key in Keys(pairs) {
      var i := LastIndexOf(Keys(pairs), key);
      assert pairs[i].1 == RowEntry(rows[i]).value.1;
    }
  }
}
