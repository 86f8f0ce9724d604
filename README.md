# EdMyst reporting core, modelled in Dafny

This project models the deterministic data-shaping core of the EdMyst reporting
service. The service turns a candidate's assessment results into a PDF report. Two
report variants exist, "leadership" and "talent insights". The model covers what
happens between the incoming message and the drawing and rendering calls:

- payload validation and parsing for both report variants;
- choosing the top and bottom skills, and looking up their texts in the skill lexicon;
- the arithmetic behind the charts (gauge text positions, resampling of the speech-rate
  series, pause-bar widths, spider-plot means and angles and the label-offset rule);
- the two CSV-to-lexicon builders, and their sentence splitting on `\d+[.,]`;
- the CSV-to-table step of `get_skills_resources`, with its `{-}` list rule;
- the e-mail record;
- the message handler: payload assembly, the `pdf` dispatch table, and the table of
  steps that run after the report is generated.

Python values are modelled as follows:

- A decoded JSON payload is a `PyValue.Value` tree.
- A dictionary is a sequence of (key, value) pairs in insertion order (`OrderedDict`).
  - Assigning to an existing key keeps its place; a new key is appended.
  - `Get` returns the first occurrence, and dictionaries that come from the runtime are
    required to have no duplicate keys.
- Every exception the code can raise is modelled as an `Err` of `Common.Result`,
  named by its Python class: `KeyError(key)`, `TypeError(message)`, `IndexError`,
  `AttributeError(message)`, `ZeroDivisionError`, `StatisticsError`, `StopIteration`.
- Dictionaries the code mutates in place, like the caller's payload that `_parse_payload`
  pops from, are `PyValue.DictObject` objects.
- Loops in the code are methods with loop invariants. Each method is proved against
  a function of its inputs, and the properties are proved about that function.

Modules:

| module | models |
|---|---|
| `Common` | `Result`/`Option`/`Outcome`, exceptions, generic sequence helpers |
| `Text` | the `str` methods the core uses (`strip`, `lower`, `split`, `join`, `replace`, `title`) |
| `OrderedDict` | insertion-ordered dictionaries, dict-building loops, `{**d, **e}` |
| `PyValue` | payload values, `d[k]`, `d.get`, `in`, `str()`, truthiness, `pop` |
| `Sentences` | `break_sentence` and the regex split it is built on |
| `Ranking` | the sorts and slices used to pick skills |
| `SkillText` | the lexicon copy loop both variants use |
| `TalentInsightsReport` | talentinsights_pdf_report.py |
| `LeadershipReport` | leadership_pdf_report.py |
| `Graphing` | the arithmetic of graphing.py |
| `Edy` | edy.py |
| `TalentInsightsParser` | talentinsights_assessment/scripts/parser.py |
| `LeadershipParser` | leadership_assessment/scripts/parser.py |
| `Index` | index.py |

## Model

| member | source | states |
|---|---|---|
| Text.Strip | talentinsights_assessment/scripts/parser.py:96 | `str.strip()`: the result has no surrounding whitespace and is the input less a whitespace-only prefix and suffix |
| Text.StripOfStripped | talentinsights_assessment/scripts/parser.py:96 | stripping is idempotent: a stripped text is left as it is |
| Text.Lower | talentinsights_assessment/scripts/parser.py:32 | `str.lower()`: same length, no capital left, every other character unchanged, each capital its small letter |
| Text.LowerIdempotent | talentinsights_assessment/scripts/parser.py:32 | lower-casing twice is lower-casing once |
| Text.ReplaceChar | talentinsights_assessment/scripts/talentinsights_pdf_report.py:507-509 | each occurrence of one character is replaced, nothing else changes |
| Text.JoinSplit | leadership_assessment/scripts/graphing.py:38 | joining the parts of a split with the same separator gives the text back |
| Text.SplitWithoutSeparator | leadership_assessment/scripts/edy.py:154 | a text without the separator splits into itself alone |
| Text.ReplaceByChar | leadership_assessment/scripts/graphing.py:38 | replacing a one-character string is the character-wise replacement |
| OrderedDict.Get | leadership_assessment/scripts/edy.py:32 | a key is found exactly when present, with the value stored at its first position |
| OrderedDict.GetSet | leadership_assessment/scripts/parser.py:48 | after `d[k] = v`, `k` reads `v` and every other key reads as before |
| OrderedDict.GetRemove | talentinsights_assessment/scripts/talentinsights_pdf_report.py:115 | after removing `k`, `k` is absent and every other key reads as before |
| OrderedDict.Unique | leadership_assessment/scripts/edy.py:140 | `unique()`: each element once, in first-appearance order |
| OrderedDict.UniqueInFirstAppearanceOrder | leadership_assessment/scripts/edy.py:140 | elements of the unique list come in the order of their first appearance |
| OrderedDict.Assign | talentinsights_assessment/scripts/parser.py:43 | assigning pairs in order leaves one key per distinct key, in first-appearance order |
| OrderedDict.AssignGet | talentinsights_assessment/scripts/parser.py:43 | after assigning pairs in order, a key holds the value of its last pair |
| OrderedDict.ValuesOf | leadership_assessment/scripts/parser.py:46 | the values paired with a key, as many as its occurrences, exactly the values paired with it |
| OrderedDict.GroupAppend | leadership_assessment/scripts/parser.py:44-46 | the "create the list if new, then append" step keeps a dictionary grouped |
| OrderedDict.UpdateGet | index.py:74-79 | in `{**d, **e}` a key of `e` reads from `e`, and any other key reads from `d` |
| PyValue.Subscript | index.py:14-18 | `d[key]`: found exactly for a dictionary holding the key, else `KeyError(key)` (or `TypeError` on a non-container) |
| PyValue.GetOr | index.py:64-65 | `v.get(key, default)`: the value or the default; `AttributeError` unless `v` is a dictionary |
| PyValue.In | leadership_assessment/scripts/leadership_pdf_report.py:61-63 | `key in v` for dictionaries, lists and strings; `TypeError` for anything else |
| PyValue.Store | index.py:83-85 | `d[key] = value` sets that key and changes no other |
| PyValue.Underscored | talentinsights_assessment/scripts/talentinsights_pdf_report.py:507-509 | `d[field].replace(" ", "_")`: missing field gives `KeyError`, and a non-string has no `replace` |
| PyValue.Str | index.py:85 | `str()`/f-string text of strings and integers |
| PyValue.DictObject.Pop | talentinsights_assessment/scripts/talentinsights_pdf_report.py:115 | `d.pop(key)` returns the value and removes only that key; a missing key raises `KeyError` and changes nothing |
| Sentences.SplitAtMarkers | talentinsights_assessment/scripts/parser.py:95 | `re.split(r"\d+[.,]", s)`: one more piece than matches, and every match is a digit run followed by `.` or `,` |
| Sentences.SplitRoundTrip | talentinsights_assessment/scripts/parser.py:95 | the pieces with the matches put back between them give the text back |
| Sentences.PiecesHaveNoMarker | talentinsights_assessment/scripts/parser.py:95 | no match is missed: no piece holds a digit followed by `.` or `,` |
| Sentences.SplitWithoutMarker | talentinsights_assessment/scripts/parser.py:95 | a text the pattern does not match is one piece |
| Sentences.StrippedNonBlank | talentinsights_assessment/scripts/parser.py:96 | every result is non-empty and stripped, and there are no more results than pieces |
| Sentences.StrippedNonBlankAppend | talentinsights_assessment/scripts/parser.py:96 | filtering and stripping a concatenation is the concatenation of the two results |
| Sentences.StrippedNonBlankOne | talentinsights_assessment/scripts/parser.py:96 | one piece gives `[piece.strip()]`, or nothing when blank |
| Sentences.StrippedNonBlankExact | talentinsights_assessment/scripts/parser.py:96 | a text is kept exactly when it is a non-blank piece, stripped |
| Sentences.BreakSentence | talentinsights_assessment/scripts/parser.py:95-96 | every sentence is stripped and non-empty |
| Sentences.BrokenSentencesHaveNoMarker | talentinsights_assessment/scripts/parser.py:95-96 | the markers are removed: no sentence holds a digit followed by `.` or `,` |
| Sentences.BreakSentenceWithoutMarker | talentinsights_assessment/scripts/parser.py:95-96 | text without a marker gives `[text.strip()]`, or `[]` when blank |
| Ranking.SortAscCorrect | leadership_assessment/scripts/leadership_pdf_report.py:609 | the ascending sort is sorted by score and a permutation of its input |
| Ranking.SortAscStable | leadership_assessment/scripts/leadership_pdf_report.py:609 | the ascending sort keeps the entries of each score in their input order |
| Ranking.SortDescCorrect | talentinsights_assessment/scripts/talentinsights_pdf_report.py:537 | the descending sort is sorted by score and a permutation of its input |
| Ranking.SortDescStable | talentinsights_assessment/scripts/talentinsights_pdf_report.py:537 | the descending sort keeps the entries of each score in their input order |
| Ranking.Above | talentinsights_assessment/scripts/talentinsights_pdf_report.py:536 | `series[series > t]`: exactly the entries scoring above `t`, with their multiplicities |
| Ranking.Below | talentinsights_assessment/scripts/talentinsights_pdf_report.py:541 | `series[series < t]`: exactly the entries scoring below `t` |
| Ranking.Take | talentinsights_assessment/scripts/talentinsights_pdf_report.py:538 | `s[:n]`, cut short on a short list |
| Ranking.TakeLast | talentinsights_assessment/scripts/talentinsights_pdf_report.py:446 | `s[-n:]`, cut short on a short list |
| SkillText.FirstMissing | talentinsights_assessment/scripts/talentinsights_pdf_report.py:569-571 | the first listed skill without a lexicon entry, all before it having one |
| SkillText.CopyEntries | talentinsights_assessment/scripts/talentinsights_pdf_report.py:569-572 | copies each listed skill's entry; the first missing skill raises `KeyError(skill)` |
| TalentInsightsReport.WellFormedIffKeysAndLeaves | talentinsights_assessment/scripts/talentinsights_pdf_report.py:74-100 | a payload is accepted exactly when it is a dictionary whose keys are all strings and whose leaves are float/int/str/list/None, at every depth |
| TalentInsightsReport.ValidatePayload | talentinsights_assessment/scripts/talentinsights_pdf_report.py:74-100 | the stack walk passes exactly on well-formed payloads; a non-dictionary and a bad key give the key message, and a bad leaf gives the leaf message |
| TalentInsightsReport.LowercasedScoresFails | talentinsights_assessment/scripts/talentinsights_pdf_report.py:119 | lower-casing raises exactly when some skill name is not a string |
| TalentInsightsReport.LowercasedScoresKeys | talentinsights_assessment/scripts/talentinsights_pdf_report.py:118-119 | one key per distinct lower-cased name, in first-appearance order |
| TalentInsightsReport.LowercasedScoresLastWins | talentinsights_assessment/scripts/talentinsights_pdf_report.py:118-119 | a lower-cased key holds the last colliding skill's score, paired with the comparison score 9 |
| TalentInsightsReport.CandidateProfile | talentinsights_assessment/scripts/talentinsights_pdf_report.py:116 | `get` on a non-dictionary candidate raises `AttributeError` |
| TalentInsightsReport.CandidateProfileFields | talentinsights_assessment/scripts/talentinsights_pdf_report.py:116 | `company_name` is `company`, or "" when absent; every other field is kept |
| TalentInsightsReport.ParsePayload | talentinsights_assessment/scripts/talentinsights_pdf_report.py:115-122 | pops `Candidate` and `Job Fitment` from the caller's payload and nothing else; missing sections raise `KeyError`; returns profile, job fitment and lower-cased scores |
| TalentInsightsReport.SelfScores | talentinsights_assessment/scripts/talentinsights_pdf_report.py:120-121 | the self scores in key order; an empty table has no `Self` column |
| TalentInsightsReport.SpiderSkillsLength | talentinsights_assessment/scripts/talentinsights_pdf_report.py:444-447 | the spider plot shows `2 * min(n, 5)` skills |
| TalentInsightsReport.BottomFiveAreLowest | talentinsights_assessment/scripts/talentinsights_pdf_report.py:444-445 | the first half are the lowest-scored skills, ascending |
| TalentInsightsReport.TopFiveAreHighest | talentinsights_assessment/scripts/talentinsights_pdf_report.py:444-446 | the second half are the highest-scored skills, ascending |
| TalentInsightsReport.SpiderHalvesOverlap | talentinsights_assessment/scripts/talentinsights_pdf_report.py:444-447 | below ten skills the halves share a skill; from ten on they are disjoint |
| TalentInsightsReport.TopEntriesShape | talentinsights_assessment/scripts/talentinsights_pdf_report.py:535-539 | at most three top skills, all above 6.5, highest first |
| TalentInsightsReport.TopEntriesAreHighest | talentinsights_assessment/scripts/talentinsights_pdf_report.py:535-539 | no skill above 6.5 left out scores higher than a chosen one |
| TalentInsightsReport.BottomEntriesShape | talentinsights_assessment/scripts/talentinsights_pdf_report.py:540-544 | at most three bottom skills, all below 6.5, lowest first |
| TalentInsightsReport.BottomEntriesAreLowest | talentinsights_assessment/scripts/talentinsights_pdf_report.py:540-544 | no skill below 6.5 left out scores lower than a chosen one |
| TalentInsightsReport.TopAndBottomDisjoint | talentinsights_assessment/scripts/talentinsights_pdf_report.py:535-546 | a score of exactly 6.5 is in neither list, and the lists share no skill |
| TalentInsightsReport.TextForTopAndBottomSkills | talentinsights_assessment/scripts/talentinsights_pdf_report.py:566-574 | `{}` without top skills; otherwise each top and bottom skill gets a copy of its entry, and the first missing skill raises `KeyError` |
| TalentInsightsReport.PdfFileName | talentinsights_assessment/scripts/talentinsights_pdf_report.py:587-593 | `name_company_date.pdf` from the candidate's `name` and `company_name` with spaces replaced by underscores; a missing `name`, then a missing `company_name`, raises `KeyError` for it |
| TalentInsightsReport.FileNamesShareStem | talentinsights_assessment/scripts/talentinsights_pdf_report.py:507-512 | the HTML and PDF files share their stem and differ only in the suffix |
| LeadershipReport.AllSkills | leadership_assessment/scripts/leadership_pdf_report.py:185-189 | the skill universe is every skill of every focus area |
| LeadershipReport.AnyMissing | leadership_assessment/scripts/leadership_pdf_report.py:61-63 | `any([x not in section ...])` is true exactly when a field is missing; the whole list is evaluated, so a non-container raises |
| LeadershipReport.CheckSection | leadership_assessment/scripts/leadership_pdf_report.py:61-64 | one section check passes exactly when the section is present with all its fields, and otherwise raises its message |
| LeadershipReport.CheckSectionsFirstFailure | leadership_assessment/scripts/leadership_pdf_report.py:61-173 | the section checks pass exactly when every section passes; otherwise the first failing section decides |
| LeadershipReport.CheckSkillsKnown | leadership_assessment/scripts/leadership_pdf_report.py:190-192 | passes exactly when every recruiter skill is in the universe |
| LeadershipReport.CheckSkillsKnownFirstUnknown | leadership_assessment/scripts/leadership_pdf_report.py:190-192 | the first unknown skill is named: `missing {skill} from recruiter skill list` |
| LeadershipReport.CheckRecruiterSkills | leadership_assessment/scripts/leadership_pdf_report.py:176-192 | missing recruiter skills raise a bare `TypeError` |
| LeadershipReport.ValidatePayload | leadership_assessment/scripts/leadership_pdf_report.py:57-58 | a non-dictionary raises `Input must be a dictionary` |
| LeadershipReport.ValidatePayloadPasses | leadership_assessment/scripts/leadership_pdf_report.py:57-192 | a payload passes exactly when it is a dictionary, every section passes, and every recruiter skill is known |
| LeadershipReport.ValidatePayloadFirstMissingSection | leadership_assessment/scripts/leadership_pdf_report.py:57-173 | the first missing section raises its own message |
| LeadershipReport.ValidatePayloadUnknownSkill | leadership_assessment/scripts/leadership_pdf_report.py:185-192 | once all sections pass, the first unknown recruiter skill raises |
| LeadershipReport.ProjectSucceeds | leadership_assessment/scripts/leadership_pdf_report.py:222-224 | `{key: section[key] for key in fields}` succeeds exactly when the section is a dictionary with every field |
| LeadershipReport.ProjectContent | leadership_assessment/scripts/leadership_pdf_report.py:222-224 | the projection holds exactly the listed fields, in order, with the section's values |
| LeadershipReport.ProjectFirstFailure | leadership_assessment/scripts/leadership_pdf_report.py:222-224 | a failing projection raises as the first unreadable field does |
| LeadershipReport.CandidateProfileFields | leadership_assessment/scripts/leadership_pdf_report.py:208-212 | the profile is the candidate's own dictionary with `company_name` set to `company` |
| LeadershipReport.ProjectSectionsContent | leadership_assessment/scripts/leadership_pdf_report.py:214-306 | every measured section is copied under its parsed name as the projection on its fields |
| LeadershipReport.RecruiterSkills | leadership_assessment/scripts/leadership_pdf_report.py:324 | `payload["recruiter_skills"].keys()`: `KeyError`, or `AttributeError` on a non-dictionary |
| LeadershipReport.Present | leadership_assessment/scripts/leadership_pdf_report.py:323-325 | the enumerated skills the recruiter scored, in enumeration order |
| LeadershipReport.SkillScores | leadership_assessment/scripts/leadership_pdf_report.py:322-325 | raises exactly when some skill is enumerated and `recruiter_skills` cannot be read; otherwise exactly the scored skills, in enumeration order, each with the recruiter's score |
| LeadershipReport.ParsePayload | leadership_assessment/scripts/leadership_pdf_report.py:208-326 | succeeds exactly when the profile, the measured sections and (for a non-empty enumeration) the recruiter scores can be read; the profile is updated in place in the caller's payload; the sections are projected; `skills` holds exactly the scored skills of the universe with unchanged scores |
| LeadershipReport.ModifyScores | leadership_assessment/scripts/leadership_pdf_report.py:347-355 | every focus area is a key, in order; each bucket holds the scores of the skills it lists, in the order of the scores dictionary |
| LeadershipReport.BucketsHoldListedScores | leadership_assessment/scripts/leadership_pdf_report.py:347-353 | a score is filed somewhere exactly when its skill is in some focus area |
| LeadershipReport.FlattenScores | leadership_assessment/scripts/leadership_pdf_report.py:604-607 | the (skill, score) pairs of all buckets, bucket by bucket |
| LeadershipReport.NumericScores | leadership_assessment/scripts/leadership_pdf_report.py:609 | the pairs as numbers; a non-number cannot be sorted and raises |
| LeadershipReport.PicksBounded | leadership_assessment/scripts/leadership_pdf_report.py:610-611 | at most three of each; bottom ones below 7, top ones above 5 |
| LeadershipReport.PicksSorted | leadership_assessment/scripts/leadership_pdf_report.py:609-611 | both lists are ascending |
| LeadershipReport.BottomPicksAreLowest | leadership_assessment/scripts/leadership_pdf_report.py:610 | the bottom skills are those of the three lowest that score below 7 |
| LeadershipReport.TopPicksAreHighest | leadership_assessment/scripts/leadership_pdf_report.py:611 | the top skills are those of the three highest that score above 5 |
| LeadershipReport.PicksDisjointFromSix | leadership_assessment/scripts/leadership_pdf_report.py:610-611 | from six skills on, the two lists together use each entry at most once |
| LeadershipReport.PicksCanOverlap | leadership_assessment/scripts/leadership_pdf_report.py:610-611 | a single skill scored 6 is both a bottom and a top skill |
| LeadershipReport.BottomAndTopSkills | leadership_assessment/scripts/leadership_pdf_report.py:604-612 | `{"bottom_skills": ..., "top_skills": ...}` from the stable ascending sort of all pairs |
| LeadershipReport.TextForBottomAndTop | leadership_assessment/scripts/leadership_pdf_report.py:633-640 | each position keeps its key and maps each listed skill to a copy of its entry; a missing skill raises |
| LeadershipReport.Description | leadership_assessment/scripts/leadership_pdf_report.py:671-673 | `table[skill]["Description"]`, with `KeyError` for either missing key |
| LeadershipReport.AllSkillsDescription | leadership_assessment/scripts/leadership_pdf_report.py:667-675 | every focus area is a key; each bucket's skills map to their descriptions; the first failing step raises |
| LeadershipReport.AsPercentage | leadership_assessment/scripts/leadership_pdf_report.py:439-441 | a value from 1 up is kept, a fraction in [0, 1) becomes a percentage below 100, and the value is unchanged exactly when it is at least 1 or 0 |
| LeadershipReport.AsPercentageTwice | leadership_assessment/scripts/leadership_pdf_report.py:455-457 | applying the rule twice changes nothing exactly when `v >= 0.01` or `v == 0` |
| LeadershipReport.VideoPdfName | leadership_assessment/scripts/leadership_pdf_report.py:688-697 | the PDF name is `video_id.pdf`; the user id, name and company are read first and may raise |
| LeadershipReport.VideoPdfNameOnlyVideoId | leadership_assessment/scripts/leadership_pdf_report.py:696 | the PDF name depends on the video id alone |
| Graphing.BarLabelBreaksAtSpaces | leadership_assessment/scripts/graphing.py:38 | a bar label has each space replaced by a newline |
| Graphing.AnnotationPosition | leadership_assessment/scripts/graphing.py:378-385 | 0.1 below the bar, 0.9 above it; `ZeroDivisionError` only on a zero-width bar hit exactly |
| Graphing.AnnotationPositionBounded | leadership_assessment/scripts/graphing.py:378-385 | the position stays in [0.1, 0.9] |
| Graphing.AnnotationPositionMonotone | leadership_assessment/scripts/graphing.py:378-385 | a higher value never points further left |
| Graphing.AnnotationPositionContinuous | leadership_assessment/scripts/graphing.py:378-385 | the formula meets the clamps at both ends of the bar |
| Graphing.Layout | leadership_assessment/scripts/graphing.py:387-401 | the band texts divide by the bar width: `ZeroDivisionError` exactly on a zero-width bar |
| Graphing.LayoutAtMidpoints | leadership_assessment/scripts/graphing.py:387-401 | band labels sit at their bands' midpoints and ticks at the band edges |
| Graphing.LayoutOrdered | leadership_assessment/scripts/graphing.py:387-401 | on a proper gauge low ≤ middle-low ≤ middle ≤ middle-high ≤ high, all on the bar |
| Graphing.ReportGaugesLayOut | leadership_assessment/scripts/leadership_pdf_report.py:380-475 | every gauge the report draws has its texts in order |
| Graphing.LinspaceEnds | leadership_assessment/scripts/graphing.py:516-518 | a linspace starts and ends at its bounds, and is constant between equal bounds |
| Graphing.ResampleBlock | leadership_assessment/scripts/graphing.py:514-521 | block `i` of the flattened series is the linspace from sample `i` to sample `i + 1` |
| Graphing.ResampleBlockEnds | leadership_assessment/scripts/graphing.py:514-521 | each block starts and ends at its samples; equal samples give a constant block |
| Graphing.ResampleShape | leadership_assessment/scripts/graphing.py:509-521 | `100 * (n - 1)` points, none for an empty series; the x grid matches and spans min to max |
| Graphing.MinOr | leadership_assessment/scripts/graphing.py:512 | `min(xs, default=0)` |
| Graphing.MaxOr | leadership_assessment/scripts/graphing.py:512 | `max(xs, default=0)` |
| Graphing.PauseLabels | leadership_assessment/scripts/graphing.py:632-642 | each pause kind is labelled `<Kind> Pause`, in the fixed order |
| Graphing.BarWidths | leadership_assessment/scripts/graphing.py:643-655 | no segment width is negative, and the segments reach the larger of their ends |
| Graphing.MeanBounds | leadership_assessment/scripts/graphing.py:82 | a mean lies between the smallest and largest values |
| Graphing.AreaScores | leadership_assessment/scripts/graphing.py:82 | succeeds exactly when every score of the area is a number, and then gives those scores in order |
| Graphing.AreaMean | leadership_assessment/scripts/graphing.py:82 | an empty area raises `StatisticsError`; otherwise the mean of its scores |
| Graphing.Closed | leadership_assessment/scripts/graphing.py:83 | the first value is appended again to close the polygon |
| Graphing.SpiderScores | leadership_assessment/scripts/graphing.py:82-83 | the area means in order, closed; succeeds exactly when every area has a mean |
| Graphing.SpiderScoresFirstFailure | leadership_assessment/scripts/graphing.py:82 | the first area that raises decides the error |
| Graphing.SpiderAnglesShape | leadership_assessment/scripts/graphing.py:91-92 | the angles start at 0, rise strictly below a full turn, and close on the first |
| Graphing.LabelOffsetMonotone | leadership_assessment/scripts/graphing.py:112-123 | each label is nudged up, right, down or left, and a larger angle never moves earlier in that order |
| Graphing.SpiderLabelOffsets | leadership_assessment/scripts/graphing.py:91-123 | for any number of areas the first label goes up, and the nudges go up, right, down, left in order around the plot |
| Graphing.FourAreaOffsets | leadership_assessment/scripts/graphing.py:116-123 | with four areas the labels go up, right, down, left |
| Graphing.SkillRange | leadership_assessment/scripts/graphing.py:202-213 | a skill's gauge range is its first row; a skill with no row raises `IndexError` |
| Edy.Join | leadership_assessment/scripts/edy.py:39-44 | `sep.join(items)`: succeeds exactly when every item is a string, and is then the items' texts joined by `sep` |
| Edy.EmailDataFields | leadership_assessment/scripts/edy.py:34-82 | an addressable payload gives the whole record: sender, recipient, subject, body and attachment |
| Edy.AttachmentFields | leadership_assessment/scripts/edy.py:58-80 | the attachment is `user_id/video_id.pdf` in the report bucket, named `name_company_date.pdf` |
| Edy.EmailDataNeedsFields | leadership_assessment/scripts/edy.py:34-82 | a record is built only for an addressable payload |
| Edy.AssessmentType | leadership_assessment/scripts/edy.py:32 | the payload's own `assessment_type` when present, and `leadership_assessment` otherwise |
| Edy.TypeLookup | leadership_assessment/scripts/edy.py:134 | only the two known types are found; anything else raises `KeyError` (or `TypeError` when unhashable) |
| Edy.EmailTemplate | leadership_assessment/scripts/edy.py:31-134 | succeeds exactly for an addressable payload of a known type, with the record's fields; an unknown type raises `KeyError(type)` |
| Edy.EmailTemplateSameForBothTypes | leadership_assessment/scripts/edy.py:33-131 | both assessment types get the same record |
| Edy.EmailTemplateDefaultType | leadership_assessment/scripts/edy.py:32 | a payload without a type gets the leadership e-mail |
| Edy.Column | leadership_assessment/scripts/edy.py:143 | `df[name]`: the column's cells top to bottom, `KeyError` for an unknown column |
| Edy.FocusAreaTable | leadership_assessment/scripts/edy.py:140-143 | focus areas in first-appearance order, each with its skills in row order |
| Edy.FocusAreaListing | leadership_assessment/scripts/edy.py:143 | a skill is listed under an area exactly when a row pairs them, once per such row |
| Edy.KeptStripped | leadership_assessment/scripts/edy.py:154 | empty pieces are dropped before stripping, so blank pieces survive as "" |
| Edy.KeptStrippedAppend | leadership_assessment/scripts/edy.py:154 | keeping and stripping a concatenation is the concatenation of the two results |
| Edy.KeptStrippedOne | leadership_assessment/scripts/edy.py:154 | one piece gives `[piece.strip()]`, or nothing when empty |
| Edy.SplitCell | leadership_assessment/scripts/edy.py:154 | a value with `{-}` becomes its kept, stripped pieces; any other value stays plain |
| Edy.SplitCellPieces | leadership_assessment/scripts/edy.py:154 | every piece is stripped; "" appears exactly for a whitespace-only piece |
| Edy.TextColumns | leadership_assessment/scripts/edy.py:152 | `headers[2:10]`, cut short on a narrow frame |
| Edy.SkillEntry | leadership_assessment/scripts/edy.py:151-155 | one field per text column, each the `{-}` rule applied to the skill's first row |
| Edy.SkillTextTable | leadership_assessment/scripts/edy.py:145-156 | every distinct skill in first-appearance order, with the entry of its first row |
| Edy.SkillsResources | leadership_assessment/scripts/edy.py:139-158 | the focus-area table groups each row's skill under its area; the skill-text table has the distinct skills in first-appearance order, each holding columns 2-9 of its first row after the `{-}` rule; a missing column raises `KeyError`, the focus column first |
| TalentInsightsParser.FirstAndRest | talentinsights_assessment/scripts/parser.py:49-56 | the first sentence and the rest; no sentences raises `IndexError` |
| TalentInsightsParser.PartAt | talentinsights_assessment/scripts/parser.py:71-77 | a column's sentences split into first and rest; a missing column or no sentences raises `IndexError` |
| TalentInsightsParser.RowEntryShape | talentinsights_assessment/scripts/parser.py:32-77 | a row parses exactly when columns 2 to 5 have sentences; the key is `row[0].lower()`, the definition `row[1]`, and two question parts |
| TalentInsightsParser.ParseData | talentinsights_assessment/scripts/parser.py:27-77 | the header is skipped (`StopIteration` without one); the rows' entries are assigned in order; a bad row raises `IndexError` |
| TalentInsightsParser.LastRowWins | talentinsights_assessment/scripts/parser.py:32-43 | a key is present exactly when some row lower-cases to it, and holds the last such row's entry |
| LeadershipParser.SectionNames | leadership_assessment/scripts/parser.py:29 | `header[5:]` |
| LeadershipParser.SkillDict | leadership_assessment/scripts/parser.py:48-63 | one row's skill dictionary: the three columns, then each remaining cell's sentences under its header name, in assignment order; a row longer than the header raises `IndexError` |
| LeadershipParser.Sections | leadership_assessment/scripts/parser.py:54-63 | each remaining cell is filed under its header name as its sentences, after what the dictionary already holds; a row longer than the header raises `IndexError` |
| LeadershipParser.RowFieldsCells | leadership_assessment/scripts/parser.py:48-52 | the dictionary starts with description, strength and improvement; each is its column 2, 3 or 4 unless a header name equal to it overwrites it |
| LeadershipParser.RowFieldsKeys | leadership_assessment/scripts/parser.py:48-63 | a key is present exactly when it is one of the three fixed keys or a header name of one of the row's cells |
| LeadershipParser.RowFieldsSections | leadership_assessment/scripts/parser.py:54-63 | a header name of a cell holds the last such cell's sentences, also when the name is one of the three fixed keys |
| LeadershipParser.RowFieldsSentences | leadership_assessment/scripts/parser.py:57-60 | every stored sentence is stripped and non-empty |
| LeadershipParser.ParseData | leadership_assessment/scripts/parser.py:28-63 | focus areas group `row[1]` in row order with duplicates; skills are assigned row by row; `StopIteration` without a header; a bad row raises `IndexError` |
| LeadershipParser.RepeatedSkill | leadership_assessment/scripts/parser.py:44-52 | a repeated skill is listed again under its area but keeps one skills entry, the last |
| Index.PdfFor | index.py:7-10 | `pdf[assessment_type]`: the leadership or talent-insights report; anything else raises `KeyError` |
| Index.UploadAction | index.py:13-18 | reads `local_file`, `bucket_name`, `blob_name`; a missing one raises `KeyError` |
| Index.EmailAction | index.py:22-25 | no e-mail without a truthy address; otherwise the e-mail record |
| Index.StepsAsIntended | index.py:33-51 | running the step table is: upload for both types, then e-mail for leadership only, nothing for other types |
| Index.AfterPdfGenerated | index.py:47-51 | the loop over the step table gives exactly the intended actions |
| Index.RunStepsErr | index.py:49-51 | once a step raises, the run raises that error |
| Index.RunStepsNext | index.py:49-51 | a step that does not run for the type, or takes no action, adds nothing; one that takes an action appends it; one that raises ends the run with its error |
| Index.IntendedActionsShape | index.py:33-51 | for a known type the upload comes first; a second action exists exactly for leadership with a truthy address, and it is the e-mail record; an unknown type takes no action |
| Index.EmailOnlyForLeadership | index.py:23-24 | an e-mail is sent only for leadership, only to a truthy address, and after the upload |
| Index.UploadForBothTypes | index.py:33-37 | both types upload with the file, bucket and object the handler stored |
| Index.ProfileGet | index.py:66-72 | the profile holds name, company, user id and video id once each |
| Index.MergedGet | index.py:74-79 | in the merged payload `Job Fitment` wins, then the video data, then the handler's own two entries |
| Index.MergedFacts | index.py:74-79 | the merged payload, key by key |
| Index.MergedPayload | index.py:62-79 | `video_data.get` raises unless it is a dictionary; the merge rules above with the defaults |
| Index.Stored | index.py:83-85 | sets `local_file`, `bucket_name`, `blob_name` and nothing else |
| Index.Handler | index.py:54-91 | no user id gives `no user id given`; otherwise the merge, the report choice, the report's `company_name` on the shared candidate, the stored entries, the steps and the reply, the first error deciding |
| Index.AssessmentTypeSurvives | index.py:80 | the report is chosen by the video data's assessment type |
| Index.ReportedPayload | index.py:81 | the report's shallow copy shares the candidate: its `company_name` becomes its `company` (or ""), every other key and entry unchanged |
| Index.HandlerPayload | index.py:64-85 | the final payload: blob name, job fitment, video-data keys not written by the handler, and the profile with the report's `company_name` unless the video data brings one |
| Index.EmailAttachesStoredPdf | index.py:54-91 | with the handler's own profile and string ids, the e-mail attaches the object the handler uploads |

## Left out

- Drawing, PDF and HTML rendering, image cropping: library calls with nothing to check.
- File I/O, CSV and JSON reading and writing, S3 and SNS calls: the loaded CSV is an input
  (`Edy.Frame`, rows of cell text), and the record handed to SNS is the value returned.
- The report generator's run inside the handler: its result is the `reportFile` parameter.
- `dt.date.today()`: the date is a parameter.
- JSON decoding of the incoming message: the handler takes the decoded value.
- Unicode NFKD normalisation in both parsers: the cells are taken as already normalised.
- Case mapping: `lower` and `title` are modelled on ASCII letters only.
- `np.round` and `textwrap.wrap` are not modelled; the chart arithmetic is over exact reals.
- Floating-point arithmetic: scores and positions are exact reals.
- `PI = 3.14592` is kept as the chart writes it.
- pandas type inference: every cell of the lexicon frame `Edy.Frame` is text, and NaN cells are not modelled.
- Graphing.SkillRange: the range cells `Min`, `Max`, `R1` and `R2` are taken as numbers, and the `KeyError` that a range table without one of those columns raises is not modelled.
- pandas' default sort is not stable: the model uses a stable sort, which is one of the outcomes it allows.
- Leadership `_parse_payload` enumerates `list(set(...))`: the enumeration order is the `order` parameter.
- PyValue.Str: gives a fixed placeholder for floats, lists and dictionaries, since their text is not modelled.
- LeadershipReport.NumericScores: a non-numeric score raises `TypeError` before sorting, with a fixed message; Python's own message is not modelled.
- Graphing.AreaScores: a non-numeric score raises `TypeError("scores must be numbers")`; the message `statistics.mean` gives is not modelled.
- TalentInsightsReport.SelfScores: a `None`, string or list self score raises `TypeError` up front; the report raises nothing there, since pandas turns a null into NaN and sorts it last, and sorts an all-string column as text; neither is modelled.
- Index.ReportedPayload: a report that raises (the leadership one on a candidate without `company`) is outside this model, and so is what the report does to its own copy.
- Index.AfterPdfGenerated: when a step raises, the actions already taken are not returned with the error.
- The gauge colour maps and the colour ranges of the skill gauges: drawing parameters only.
- The talent-insights interview-question loop over columns 4 and 5 is written out as its two iterations.
- The printing in `after_pdf_generated` and elsewhere.
- talentinsights_assessment/scripts/app.py and the module-level sample run in index.py are not part of this model.
