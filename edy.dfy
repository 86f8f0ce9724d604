/** The shared helpers of the leadership report: the e-mail record sent to a candidate
    once the report is stored, and the two tables built from the report-content CSV
    (focus areas with their skills, and the text fields of every skill). */
module Edy {
  import opened Common
  import opened Text
  import opened OrderedDict
  import opened PyValue

  const PdfBucket := "leadership-assessment-pdf"
  const Sender := "support@edmyst.com"
  const SubjectLead := "Here is your EdMyst Assessment report for"
  const Greeting := "Hi"
  const Closing := ", \n\n Thank you for taking the Assessment. Please find attached the output report.\nFor any questions, we can be reached at assessment@edmyst.com\nWe wish you the best in your development journey.\n\nAssessment Team,\nEdMyst Inc."
  const DefaultAssessmentType := "leadership_assessment"
  const AssessmentTypes := ["leadership_assessment", "talentinsights_assessment"]

  /** The report stored in S3 that the e-mail carries as its attachment. */
  datatype Attachment = Attachment(kind: string, bucket: string, objectKey: string, fileName: string)

  /** The message handed to the mailer: `{"email_type": ..., "email_data": {...}}`. */
  datatype EmailRecord = EmailRecord(
    emailType: string,
    from: string,
    to: seq<Value>,
    subject: string,
    content: string,
    contentType: string,
    attachments: seq<Attachment>)

  /** `sep.join(items)`: every item must be a string; the first one that is not raises. */
  function Join(sep: string, items: seq<Value>): (r: Result<string>)
    ensures r.Ok? <==> forall i :: 0 <= i < |items| ==> items[i].VStr?
    ensures r.Ok? ==> r.value == JoinWith(sep, Texts(items))
  {
    match FirstNonText(items)
    case Some(i) =>
      Err(TypeError("sequence item " + NatToString(i) + ": expected str instance, "
                    + TypeName(items[i]) + " found"))
    case None => Ok(JoinWith(sep, Texts(items)))
  }

  function FirstNonText(items: seq<Value>): (m: Option<nat>)
    ensures m.Some? ==> m.value < |items| && !items[m.value].VStr?
    ensures m.Some? ==> forall j :: 0 <= j < m.value ==> items[j].VStr?
    ensures m.None? <==> forall i :: 0 <= i < |items| ==> items[i].VStr?
  {
    if items == [] then None
    else if !items[0].VStr? then Some(0)
    else
      match FirstNonText(items[1..])
      case None => None
      case Some(i) => Some(i + 1)
  }

  /** The texts of values that are all strings. */
  function Texts(items: seq<Value>): (ts: seq<string>)
    ensures |ts| == |items|
    ensures forall i :: 0 <= i < |items| && items[i].VStr? ==> ts[i] == items[i].s
  {
    seq(|items|, i requires 0 <= i < |items| => if items[i].VStr? then items[i].s else "")
  }

  lemma JoinTwo(sep: string, a: string, b: string)
    ensures JoinWith(sep, [a, b]) == a + sep + b
  {
    assert [a, b][1..] == [b];
  }

  lemma JoinThree(sep: string, a: string, b: string, c: string)
    ensures JoinWith(sep, [a, b, c]) == a + sep + b + sep + c
  {
    assert [a, b, c][1..] == [b, c];
    JoinTwo(sep, b, c);
  }

  /** The e-mail record both assessment types share, evaluated in the order the
      dictionary display in `email_data` reads the payload: the address, then the candidate's
      name, user id, video id and company. */
  function EmailData(payload: seq<(Key, Value)>, date: string): Result<EmailRecord> {
    var email :- Subscript(VDict(payload), "email");
    var candidate :- Subscript(VDict(payload), "Candidate");
    var name :- Subscript(candidate, "name");
    var subject :- Join(" ", [VStr(SubjectLead), name]);
    var content :- Join(" ", [VStr(Greeting), name, VStr(Closing)]);
    WithAttachment(email, candidate, name, subject, content, date)
  }

  /** The rest of the record, from the attachment's fields on. */
  function WithAttachment(email: Value, candidate: Value, name: Value, subject: string, content: string,
                          date: string): Result<EmailRecord>
  {
    var userId :- Subscript(candidate, "user_id");
    var videoId :- Subscript(candidate, "video_id");
    var objectStem :- Join("/", [userId, videoId]);
    var company :- Subscript(candidate, "company");
    var fileStem :- Join("_", [name, company, VStr(date)]);
    Ok(EmailRecord("raw_send_email", Sender, [email], subject, content, "plain",
                   [Attachment("s3", PdfBucket, objectStem + ".pdf", fileStem + ".pdf")]))
  }

  /** The candidate fields the e-mail reads, when they are all present as strings. */
  predicate Addressable(payload: seq<(Key, Value)>) {
    && StrKey("email") in Keys(payload)
    && Get(payload, StrKey("Candidate")).Some?
    && var c := Get(payload, StrKey("Candidate")).value;
    && c.VDict?
    && (forall f :: f in ["name", "user_id", "video_id", "company"] ==>
          Get(c.entries, StrKey(f)).Some? && Get(c.entries, StrKey(f)).value.VStr?)
  }

  /** `payload["Candidate"][field]` of an addressable payload. */
  function CandidateText(payload: seq<(Key, Value)>, field: string): string
    requires Addressable(payload) && field in ["name", "user_id", "video_id", "company"]
  {
    Get(Get(payload, StrKey("Candidate")).value.entries, StrKey(field)).value.s
  }

  /** What the shared record holds when the payload is addressable, and that it is
      built exactly then. */
  lemma EmailDataFields(payload: seq<(Key, Value)>, date: string)
    ensures Addressable(payload) ==>
      EmailData(payload, date) == Ok(EmailRecord("raw_send_email", Sender, [Get(payload, StrKey("email")).value],
        SubjectLead + " " + CandidateText(payload, "name"),
        Greeting + " " + CandidateText(payload, "name") + " " + Closing, "plain",
        [Attachment("s3", PdfBucket,
           CandidateText(payload, "user_id") + "/" + CandidateText(payload, "video_id") + ".pdf",
           CandidateText(payload, "name") + "_" + CandidateText(payload, "company") + "_" + date + ".pdf")]))
  {
    if Addressable(payload) {
      var c := Get(payload, StrKey("Candidate")).value;
      var email := Get(payload, StrKey("email")).value;
      var name := CandidateText(payload, "name");
      assert Subscript(c, "name") == Ok(VStr(name));
      assert Join(" ", [VStr(SubjectLead), VStr(name)]) == Ok(SubjectLead + " " + name) by {
        assert Texts([VStr(SubjectLead), VStr(name)]) == [SubjectLead, name];
        JoinTwo(" ", SubjectLead, name);
      }
      assert Join(" ", [VStr(Greeting), VStr(name), VStr(Closing)]) == Ok(Greeting + " " + name + " " + Closing) by {
        assert Texts([VStr(Greeting), VStr(name), VStr(Closing)]) == [Greeting, name, Closing];
        JoinThree(" ", Greeting, name, Closing);
      }
      AttachmentFields(email, c, name, SubjectLead + " " + name, Greeting + " " + name + " " + Closing, date);
    }
  }

  lemma AttachmentFields(email: Value, c: Value, name: string, subject: string, content: string, date: string)
    requires c.VDict?
    requires forall f :: f in ["user_id", "video_id", "company"] ==>
               Get(c.entries, StrKey(f)).Some? && Get(c.entries, StrKey(f)).value.VStr?
    ensures WithAttachment(email, c, VStr(name), subject, content, date)
      == Ok(EmailRecord("raw_send_email", Sender, [email], subject, content, "plain",
              [Attachment("s3", PdfBucket,
                 Get(c.entries, StrKey("user_id")).value.s + "/" + Get(c.entries, StrKey("video_id")).value.s + ".pdf",
                 name + "_" + Get(c.entries, StrKey("company")).value.s + "_" + date + ".pdf")]))
  {
    var userId := Get(c.entries, StrKey("user_id")).value.s;
    var videoId := Get(c.entries, StrKey("video_id")).value.s;
    var company := Get(c.entries, StrKey("company")).value.s;
    assert Subscript(c, "user_id") == Ok(VStr(userId));
    assert Subscript(c, "video_id") == Ok(VStr(videoId));
    assert Subscript(c, "company") == Ok(VStr(company));
    assert Join("/", [VStr(userId), VStr(videoId)]) == Ok(userId + "/" + videoId) by {
      assert Texts([VStr(userId), VStr(videoId)]) == [userId, videoId];
      JoinTwo("/", userId, videoId);
    }
    assert Join("_", [VStr(name), VStr(company), VStr(date)]) == Ok(name + "_" + company + "_" + date) by {
      assert Texts([VStr(name), VStr(company), VStr(date)]) == [name, company, date];
      JoinThree("_", name, company, date);
    }
  }

  /** The record is built only when every field it reads is there, as a string. */
  lemma EmailDataNeedsFields(payload: seq<(Key, Value)>, date: string)
    ensures EmailData(payload, date).Ok? ==> Addressable(payload)
  {
    if EmailData(payload, date).Err? {
      return;
    }
    var c := Subscript(VDict(payload), "Candidate").value;
    var fields := ["name", "user_id", "video_id", "company"];
    var name := Subscript(c, "name").value;
    assert Join(" ", [VStr(SubjectLead), name]).Ok?;
    assert [VStr(SubjectLead), name][1] == name;
    var userId := Subscript(c, "user_id").value;
    var videoId := Subscript(c, "video_id").value;
    assert Join("/", [userId, videoId]).Ok?;
    assert [userId, videoId][0] == userId && [userId, videoId][1] == videoId;
    assert WithAttachment(Subscript(VDict(payload), "email").value, c, name,
      Join(" ", [VStr(SubjectLead), name]).value, Join(" ", [VStr(Greeting), name, VStr(Closing)]).value, date).Ok?;
    var company := Subscript(c, "company").value;
    assert Join("_", [name, company, VStr(date)]).Ok?;
    assert [name, company, VStr(date)][1] == company;
    forall f | f in fields ensures Get(c.entries, StrKey(f)).Some? && Get(c.entries, StrKey(f)).value.VStr? {
      assert f == fields[0] || f == fields[1] || f == fields[2] || f == fields[3];
    }
  }

  /** `payload.get("assessment_type", "leadership_assessment")`. */
  function AssessmentType(payload: seq<(Key, Value)>): (r: Value)
    ensures StrKey("assessment_type") in Keys(payload) ==> Some(r) == Get(payload, StrKey("assessment_type"))
    ensures StrKey("assessment_type") !in Keys(payload) ==> r == VStr("leadership_assessment")
  {
    match Get(payload, StrKey("assessment_type"))
    case Some(t) => t
    case None => VStr(DefaultAssessmentType)
  }

  /** `email_types[t]` for a table keyed by the two assessment types: a list or a
      dictionary cannot be hashed, any other value that is not one of the two keys is
      missing. The `KeyError` carries the key's text `Str(t)`, not the key object, so
      an integer key `5` and a string key `"5"` give the same error here. */
  function TypeLookup(t: Value): (r: Outcome)
    ensures r == Pass <==> t.VStr? && t.s in AssessmentTypes
  {
    if t.VStr? && t.s in AssessmentTypes then Pass
    else if t.VList? || t.VDict? then Fail(TypeError("unhashable type: '" + TypeName(t) + "'"))
    else Fail(KeyError(Str(t)))
  }

  /** `email_template(payload)`: both entries of the table are built, then the one for
      the payload's assessment type is selected. */
  function EmailTemplate(payload: seq<(Key, Value)>, date: string): (r: Result<EmailRecord>)
    ensures r.Ok? <==> Addressable(payload) && AssessmentType(payload).VStr?
                       && AssessmentType(payload).s in AssessmentTypes
    ensures r.Ok? ==>
      && r.value.emailType == "raw_send_email"
      && r.value.from == Sender
      && r.value.to == [Get(payload, StrKey("email")).value]
      && r.value.subject == SubjectLead + " " + CandidateText(payload, "name")
      && r.value.attachments == [Attachment("s3", PdfBucket,
           CandidateText(payload, "user_id") + "/" + CandidateText(payload, "video_id") + ".pdf",
           CandidateText(payload, "name") + "_" + CandidateText(payload, "company") + "_" + date + ".pdf")]
    ensures Addressable(payload) && AssessmentType(payload).VStr?
            && AssessmentType(payload).s !in AssessmentTypes ==>
      r == Err(KeyError(AssessmentType(payload).s))
    ensures StrKey("email") !in Keys(payload) ==> r == Err(KeyError("email"))
  {
    EmailDataFields(payload, date);
    EmailDataNeedsFields(payload, date);
    var record :- EmailData(payload, date);
    var t := AssessmentType(payload);
    match TypeLookup(t)
    case Pass => Ok(record)
    case Fail(e) => Err(e)
  }

  /** Which of the two assessment types is asked for does not change the record. */
  lemma EmailTemplateSameForBothTypes(payload: seq<(Key, Value)>, other: seq<(Key, Value)>, date: string)
    requires NoDupKeys(payload) && NoDupKeys(other)
    requires forall k :: k != StrKey("assessment_type") ==> Get(payload, k) == Get(other, k)
    requires EmailTemplate(payload, date).Ok? && EmailTemplate(other, date).Ok?
    ensures EmailTemplate(payload, date) == EmailTemplate(other, date)
  {
    assert Get(payload, StrKey("email")) == Get(other, StrKey("email"));
    assert Get(payload, StrKey("Candidate")) == Get(other, StrKey("Candidate"));
    EmailDataReads(payload, other, date);
  }

  /** The shared record reads the payload's `email` and `Candidate` entries and nothing else. */
  lemma EmailDataReads(payload: seq<(Key, Value)>, other: seq<(Key, Value)>, date: string)
    requires Get(payload, StrKey("email")) == Get(other, StrKey("email"))
    requires Get(payload, StrKey("Candidate")) == Get(other, StrKey("Candidate"))
    ensures EmailData(payload, date) == EmailData(other, date)
  {
    assert Subscript(VDict(payload), "email") == Subscript(VDict(other), "email");
    assert Subscript(VDict(payload), "Candidate") == Subscript(VDict(other), "Candidate");
  }

  /** A payload without `assessment_type` gets the leadership e-mail. */
  lemma EmailTemplateDefaultType(payload: seq<(Key, Value)>, date: string)
    requires StrKey("assessment_type") !in Keys(payload)
    ensures EmailTemplate(payload, date) == EmailTemplate(payload + [(StrKey("assessment_type"), VStr(DefaultAssessmentType))], date)
  {
    var p := payload + [(StrKey("assessment_type"), VStr(DefaultAssessmentType))];
    GetSnoc(payload, StrKey("assessment_type"), VStr(DefaultAssessmentType), StrKey("assessment_type"));
    assert AssessmentType(p) == AssessmentType(payload);
    assert "email"[0] != "assessment_type"[0] && "Candidate"[0] != "assessment_type"[0];
    GetSnoc(payload, StrKey("assessment_type"), VStr(DefaultAssessmentType), StrKey("email"));
    GetSnoc(payload, StrKey("assessment_type"), VStr(DefaultAssessmentType), StrKey("Candidate"));
    EmailDataReads(payload, p, date);
  }

  // ---------------------------------------------------------------------------------
  // The report-content CSV, loaded as a data frame.

  /** A loaded CSV: its header names and its rows of cell text. The loader makes the
      header names distinct and every row as long as the header. */
  datatype Frame = Frame(columns: seq<string>, rows: seq<seq<string>>)

  predicate WellFormed(f: Frame) {
    NoDup(f.columns) && forall i :: 0 <= i < |f.rows| ==> |f.rows[i]| == |f.columns|
  }

  const FocusAreaColumn := "Focus Area"
  const SkillColumn := "Skills (Competencies)"

  /** `df[name]`: the column's cells, top to bottom; an unknown column raises. */
  function Column(f: Frame, name: string): (r: Result<seq<string>>)
    requires WellFormed(f)
    ensures r.Ok? <==> name in f.columns
    ensures r.Err? ==> r.error == KeyError(name)
    ensures r.Ok? ==> |r.value| == |f.rows|
    ensures r.Ok? ==> forall i :: 0 <= i < |f.rows| ==> r.value[i] == f.rows[i][IndexOf(f.columns, name)]
  {
    if name in f.columns then
      var c := IndexOf(f.columns, name);
      Ok(seq(|f.rows|, i requires 0 <= i < |f.rows| => f.rows[i][c]))
    else Err(KeyError(name))
  }

  /** The (focus area, skill) pair of every row, top to bottom. */
  function RowPairs(focus: seq<string>, skills: seq<string>): (pairs: seq<(string, string)>)
    requires |focus| == |skills|
    ensures Keys(pairs) == focus
    ensures forall i :: 0 <= i < |pairs| ==> pairs[i] == (focus[i], skills[i])
  {
    seq(|focus|, i requires 0 <= i < |focus| => (focus[i], skills[i]))
  }

  /** Grouping the skills under their focus areas, area by area in first-appearance
      order: `dict_focus_area[area] = list(skills.loc[focus == area])`. */
  method FocusAreaTable(focus: seq<string>, skills: seq<string>) returns (table: Dict<string, seq<string>>)
    requires |focus| == |skills|
    ensures Grouped(table, RowPairs(focus, skills))
  {
    var areas := Unique(focus);
    table := [];
    var k := 0;
    while k < |areas|
      invariant k <= |areas|
      invariant Keys(table) == areas[..k]
      invariant forall m :: 0 <= m < |table| ==> table[m].1 == ValuesOf(RowPairs(focus, skills), table[m].0)
    {
      var area := areas[k];
      assert area !in areas[..k];
      table := Set(table, area, ValuesOf(RowPairs(focus, skills), area));
      assert areas[..k + 1] == areas[..k] + [area];
      k := k + 1;
    }
  }

  /** A skill is listed under an area exactly when some row pairs the two, and an
      area lists as many skills as it has rows. */
  lemma FocusAreaListing(focus: seq<string>, skills: seq<string>, area: string, skill: string)
    requires |focus| == |skills|
    ensures skill in ValuesOf(RowPairs(focus, skills), area) <==>
      exists i :: 0 <= i < |focus| && focus[i] == area && skills[i] == skill
    ensures |ValuesOf(RowPairs(focus, skills), area)| == multiset(focus)[area]
  {
    var pairs := RowPairs(focus, skills);
    if (area, skill) in pairs {
      var i :| 0 <= i < |pairs| && pairs[i] == (area, skill);
      assert focus[i] == area && skills[i] == skill;
    }
    if exists i :: 0 <= i < |focus| && focus[i] == area && skills[i] == skill {
      var i :| 0 <= i < |focus| && focus[i] == area && skills[i] == skill;
      assert pairs[i] == (area, skill);
    }
  }

  /** A cell of the skill-text table: the plain text, or the pieces of a `{-}` list. */
  datatype Cell = Plain(text: string) | Pieces(items: seq<string>)

  const ListMark := "{-}"

  /** `[t.strip() for t in filter(None, pieces)]`: the empty pieces are dropped before
      stripping, so a piece of blanks is kept, as the empty string. */
  function KeptStripped(pieces: seq<string>): (r: seq<string>)
    ensures |r| <= |pieces|
    ensures forall x :: x in r ==> Stripped(x) && exists p :: p in pieces && p != [] && Strip(p) == x
    ensures forall p :: p in pieces && p != [] ==> Strip(p) in r
  {
    if pieces == [] then []
    else
      var rest := KeptStripped(pieces[1..]);
      assert forall p :: p in pieces[1..] ==> p in pieces;
      assert forall p :: p in pieces ==> p == pieces[0] || p in pieces[1..];
      (if pieces[0] != [] then [Strip(pieces[0])] else []) + rest
  }

  /** The comprehension keeps the order and the multiplicity of the pieces: it works
      piece by piece, so it distributes over concatenation. */
  lemma {:induction false} KeptStrippedAppend(a: seq<string>, b: seq<string>)
    ensures KeptStripped(a + b) == KeptStripped(a) + KeptStripped(b)
    decreases |a|
  {
    if a == [] {
      assert a + b == b;
    } else {
      var ab := a + b;
      assert ab[0] == a[0] && ab[1..] == a[1..] + b;
      KeptStrippedAppend(a[1..], b);
      KeptStrippedCons(ab);
      KeptStrippedCons(a);
      var h := if a[0] != [] then [Strip(a[0])] else [];
      Regrouped(h, KeptStripped(ab), KeptStripped(a[1..]), KeptStripped(a), KeptStripped(b));
    }
  }

  lemma KeptStrippedCons(s: seq<string>)
    requires s != []
    ensures KeptStripped(s) == (if s[0] != [] then [Strip(s[0])] else []) + KeptStripped(s[1..])
  {
  }

  /** One piece is dropped when it is empty and kept, stripped, otherwise. */
  lemma KeptStrippedOne(p: string)
    ensures KeptStripped([p]) == if p == [] then [] else [Strip(p)]
  {
    assert [p][1..] == [];
  }

  /** The `{-}` rule: a value holding the mark becomes the list of its kept, stripped
      pieces; any other value stays the plain text. */
  function SplitCell(value: string): (c: Cell)
    ensures c.Plain? <==> !Contains(value, ListMark)
    ensures c.Plain? ==> c.text == value
    ensures c.Pieces? ==> c.items == KeptStripped(SplitOn(Strip(value), ListMark))
  {
    if Contains(value, ListMark) then Pieces(KeptStripped(SplitOn(Strip(value), ListMark)))
    else Plain(value)
  }

  /** Every piece of a `{-}` list is stripped; blank pieces survive as "" when they are
      not empty, and empty pieces (two marks in a row) are dropped. */
  lemma SplitCellPieces(value: string)
    requires Contains(value, ListMark)
    ensures SplitCell(value).Pieces?
    ensures forall x :: x in SplitCell(value).items ==> Stripped(x)
    ensures "" in SplitCell(value).items <==>
      exists p :: p in SplitOn(Strip(value), ListMark) && p != [] && Strip(p) == []
    ensures |SplitCell(value).items| <= |SplitOn(Strip(value), ListMark)|
  {
  }

  /** The header names `headers[2:10]`: the slice is cut short on a narrow frame. */
  function TextColumns(columns: seq<string>): (ks: seq<string>)
    ensures |ks| <= 8
    ensures forall j :: 0 <= j < |ks| ==> 2 + j < |columns| && ks[j] == columns[2 + j]
  {
    if |columns| <= 2 then [] else columns[2..if |columns| < 10 then |columns| else 10]
  }

  /** The text fields of the skill whose first row is `row`: for every text column, its
      cell after the `{-}` rule. */
  method SkillEntry(f: Frame, row: nat) returns (entry: Dict<string, Cell>)
    requires WellFormed(f) && row < |f.rows|
    ensures Keys(entry) == TextColumns(f.columns)
    ensures forall j :: 0 <= j < |entry| ==> entry[j].1 == SplitCell(f.rows[row][2 + j])
  {
    var keys := TextColumns(f.columns);
    entry := [];
    var j := 0;
    while j < |keys|
      invariant j <= |keys|
      invariant Keys(entry) == keys[..j]
      invariant forall m :: 0 <= m < |entry| ==> entry[m].1 == SplitCell(f.rows[row][2 + m])
    {
      EntryStep(f, row, entry, j);
      var value := f.rows[row][IndexOf(f.columns, keys[j])];
      entry := Set(entry, keys[j], SplitCell(value));
      j := j + 1;
    }
  }

  /** One step of `SkillEntry`: the next text column is a new key, read from its own cell. */
  lemma EntryStep(f: Frame, row: nat, entry: Dict<string, Cell>, j: nat)
    requires WellFormed(f) && row < |f.rows| && j < |TextColumns(f.columns)|
    requires Keys(entry) == TextColumns(f.columns)[..j]
    ensures TextColumns(f.columns)[j] in f.columns
    ensures IndexOf(f.columns, TextColumns(f.columns)[j]) == 2 + j
    ensures var key := TextColumns(f.columns)[j];
      && Set(entry, key, SplitCell(f.rows[row][2 + j])) == entry + [(key, SplitCell(f.rows[row][2 + j]))]
      && Keys(entry + [(key, SplitCell(f.rows[row][2 + j]))]) == TextColumns(f.columns)[..j + 1]
  {
    var keys := TextColumns(f.columns);
    IndexOfNoDup(f.columns, 2 + j);
    forall m | 0 <= m < j ensures keys[m] != keys[j] {
      assert keys[m] == f.columns[2 + m];
    }
    assert keys[j] !in Keys(entry);
    assert keys[..j + 1] == keys[..j] + [keys[j]];
  }

  /** `dict_skills_text`: every distinct skill, in first-appearance order, with the text
      fields of its first row. */
  method SkillTextTable(f: Frame, skills: seq<string>) returns (table: Dict<string, Dict<string, Cell>>)
    requires WellFormed(f) && |skills| == |f.rows|
    ensures Keys(table) == Unique(skills)
    ensures forall k :: 0 <= k < |table| ==>
      && table[k].0 in skills
      && Keys(table[k].1) == TextColumns(f.columns)
      && forall j :: 0 <= j < |table[k].1| ==>
           table[k].1[j].1 == SplitCell(f.rows[IndexOf(skills, table[k].0)][2 + j])
  {
    var names := Unique(skills);
    table := [];
    var k := 0;
    while k < |names|
      invariant k <= |names|
      invariant Keys(table) == names[..k]
      invariant forall m :: 0 <= m < |table| ==>
        && table[m].0 in skills
        && Keys(table[m].1) == TextColumns(f.columns)
        && forall j :: 0 <= j < |table[m].1| ==>
             table[m].1[j].1 == SplitCell(f.rows[IndexOf(skills, table[m].0)][2 + j])
    {
      var skill := names[k];
      var entry := SkillEntry(f, IndexOf(skills, skill));
      assert skill !in names[..k];
      table := Set(table, skill, entry);
      assert table[|table| - 1] == (skill, entry);
      assert names[..k + 1] == names[..k] + [skill];
      k := k + 1;
    }
  }

  /** The two tables of `get_skills_resources`, from the loaded CSV. A frame without the
      focus-area column or the skill column raises `KeyError` for it (the focus-area
      column is read first). */
  method SkillsResources(f: Frame) returns (r: Result<(Dict<string, seq<string>>, Dict<string, Dict<string, Cell>>)>)
    requires WellFormed(f)
    ensures r.Ok? <==> FocusAreaColumn in f.columns && SkillColumn in f.columns
    ensures FocusAreaColumn !in f.columns ==> r == Err(KeyError(FocusAreaColumn))
    ensures FocusAreaColumn in f.columns && SkillColumn !in f.columns ==> r == Err(KeyError(SkillColumn))
    ensures r.Ok? ==> Grouped(r.value.0, RowPairs(Column(f, FocusAreaColumn).value, Column(f, SkillColumn).value))
    ensures r.Ok? ==> Keys(r.value.1) == Unique(Column(f, SkillColumn).value)
    ensures r.Ok? ==> forall k :: 0 <= k < |r.value.1| ==>
      && r.value.1[k].0 in Column(f, SkillColumn).value
      && Keys(r.value.1[k].1) == TextColumns(f.columns)
      && forall j :: 0 <= j < |r.value.1[k].1| ==>
           r.value.1[k].1[j].1 == SplitCell(f.rows[IndexOf(Column(f, SkillColumn).value, r.value.1[k].0)][2 + j])
  {
    var focus := Column(f, FocusAreaColumn);
    if focus.Err? {
      return Err(focus.error);
    }
    var skills := Column(f, SkillColumn);
    if skills.Err? {
      return Err(skills.error);
    }
    var areas := FocusAreaTable(focus.value, skills.value);
    var texts := SkillTextTable(f, skills.value);
    r := Ok((areas, texts));
  }
}
