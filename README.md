# Advanced Recruitment: CV scan and ranking, modelled in Dafny

This project models the core of the Odoo add-on `advanced_recruitment`. It
covers two parts:

- The CV scan wizard (`advanced_recruitment.cv_scan_wizard`). It wipes the
  resume store, reads every uploaded CV, extracts the candidate's name,
  email and phone, scores the CV against the job description, and creates
  one `advanced_recruitment.resume` record per readable CV. It then returns
  the `top_n` best records.
- The resume record. Its status bucket is computed from the score, and its
  default order is `score desc`.

## Modules

- `Wrappers` (wrappers.dfy): `Option` and `Result`.
- `PyStrings` (py_strings.dfy): the Python string behaviour the wizard relies
  on. This covers `str.isspace` (the full whitespace set), `strip`, `split()`,
  `split('\n')`, `lower`, `startswith`, slicing `s[:n]` with a possibly
  negative bound, and `int()`/`str()` on naturals.
- `ResumeModel` (resume.dfy):
  - the status scale and the bucket rule;
  - the `Resume` class, whose fields are fixed at creation except the
    computed `status`;
  - `_compute_status` as a loop over a recordset;
  - the stable sort by descending score;
  - the `ResumeStore` class, with `search`, `unlink`, `create` and rollback.
- `MatchScoring` (match_scoring.dfy):
  - the word-overlap fallback scorer;
  - the `\b([0-9]{1,2}0?)\b` scan of the reply text;
  - the loop that takes the first match worth at most 100;
  - `_get_gemini_match_score` as a whole.
- `FieldExtraction` (field_extraction.dfy): `_extract_basic_info`. It scans
  the first five lines for a name, and takes the first email and phone
  pattern matches or their sentinels.
- `CvScanWizard` (cv_scan_wizard.dfy):
  - the upload line with its `_onchange_file` default name;
  - what one upload turns into;
  - the record-creation loop;
  - `action_generate_top`;
  - the top-N selection.

## Collaborators

Calls the model cannot see are passed in as the `Collaborators` value:

- the base64 decoder;
- `_extract_text`;
- the email and phone `re.findall` results;
- the outcome of the remote scoring call.

The remote call's outcome is either "raised" (transport error, timeout, or a
reply of the wrong shape) or an HTTP status together with the reply texts of
its `candidates`. It is a function of the job text and the CV text (see
"## Left out").

## Modelling choices

- **Wipe before validation.** `action_generate_top` wipes the store first and
  validates its inputs afterwards. The model keeps that order. Every
  `UserError` path then puts back the records that were there before, which
  is the rollback Odoo performs. As a result, an error leaves the store
  unchanged.
- **Negative `top_n`.** `top_n` is not checked. A negative value drops that
  many records from the end of the sorted list, exactly as the Python slice
  does.
- **Reply scan.** The regular expression's `findall` is modelled as a scan.
  At each position it tries the one end the pattern can have there, which
  is the end of the word-character run. After a match the scan resumes at
  the match's end; otherwise it moves on by one.
  `MatchScoring.RegexMatchIsNumberRun` proves that this characterises the
  pattern's matches exactly.
- **Default name.** `candidate_name` defaults to `"Candidate"`, the same
  literal the name scan falls back to. The wizard always passes a name, so
  the default never applies to records it creates.

## Model

| member | source | states |
|---|---|---|
| ResumeModel.Bucket | advanced_recruitment/models/resume.py:28-39 | each of the six statuses is returned exactly when the score is in its range; every threshold (90, 80, 70, 60, 45) belongs to the higher bucket |
| ResumeModel.BucketMonotone | advanced_recruitment/models/resume.py:28-39 | a higher score never lands in a lower bucket |
| ResumeModel.ComputeStatus | advanced_recruitment/models/resume.py:25-39 | afterwards every record of the set has the status of its own score's bucket |
| ResumeModel.Resume.constructor | advanced_recruitment/models/resume.py:8-14 | the new record holds the given values; a missing name becomes "Candidate"; the status is not yet computed |
| ResumeModel.ResumeStore.Search | advanced_recruitment/models/resume.py:6 | the listing holds exactly the stored records, in non-increasing score order |
| ResumeModel.ResumeStore.constructor | advanced_recruitment/models/resume.py:3-6 | a new store is valid and holds no records |
| ResumeModel.ResumeStore.Create | advanced_recruitment/models/resume.py:8-23 | a fresh record with the next id and the given values is appended; its status is its score's bucket; the store stays consistent |
| ResumeModel.ResumeStore.UnlinkAll | advanced_recruitment/wizard/cv_scan_wizard.py:196 | the store is emptied and ids are not reused |
| ResumeModel.ResumeStore.Restore | advanced_recruitment/wizard/cv_scan_wizard.py:199-203 | the saved records are back and the id counter is kept (the rollback on a user error) |
| ResumeModel.InsertByScore | advanced_recruitment/wizard/cv_scan_wizard.py:259 | one insertion step makes the list one record longer |
| ResumeModel.InsertByScorePermutes | advanced_recruitment/wizard/cv_scan_wizard.py:259 | one insertion step adds exactly the inserted record |
| ResumeModel.InsertByScoreSorted | advanced_recruitment/wizard/cv_scan_wizard.py:259 | inserting into a score-descending list keeps it score-descending |
| ResumeModel.InsertByScoreStable | advanced_recruitment/wizard/cv_scan_wizard.py:259 | the inserted record goes after every record with the same score |
| ResumeModel.SortByScore | advanced_recruitment/wizard/cv_scan_wizard.py:259 | the sort keeps every position: as many records out as in (order, permutation and stability below) |
| ResumeModel.SortByScoreSorted | advanced_recruitment/wizard/cv_scan_wizard.py:259 | `sorted(key=score, reverse=True)` gives non-increasing scores |
| ResumeModel.SortByScorePermutes | advanced_recruitment/wizard/cv_scan_wizard.py:259 | the sort is a permutation of its input |
| ResumeModel.SortByScoreStable | advanced_recruitment/wizard/cv_scan_wizard.py:259 | records with equal scores keep their input order |
| MatchScoring.WordSet | advanced_recruitment/wizard/cv_scan_wizard.py:151-152 | `set(t.lower().split())` holds only non-empty words without whitespace |
| MatchScoring.Fallback | advanced_recruitment/wizard/cv_scan_wizard.py:149-164 | the fallback score lies in 30..80; it is (50, "Neutral match") exactly when the job has no words |
| MatchScoring.FallbackOverlap | advanced_recruitment/wizard/cv_scan_wizard.py:151-162 | with job words, the score is exactly 30 + 50·common/job words, so the clamp never changes it; the reason counts the common words |
| MatchScoring.OverlapScoreRange | advanced_recruitment/wizard/cv_scan_wizard.py:157-159 | a ratio in 0..1 maps into 30..80, with 30 and 80 at the ends |
| MatchScoring.OverlapScoreMonotone | advanced_recruitment/wizard/cv_scan_wizard.py:157-158 | more common words never give a lower unclamped score |
| MatchScoring.FallbackFullOverlap | advanced_recruitment/wizard/cv_scan_wizard.py:154-159 | every job word in the CV gives exactly 80 |
| MatchScoring.FallbackNoOverlap | advanced_recruitment/wizard/cv_scan_wizard.py:154-159 | no job word in the CV gives exactly 30 |
| MatchScoring.FallbackMonotone | advanced_recruitment/wizard/cv_scan_wizard.py:154-164 | for one job, a CV sharing more job words never scores lower |
| MatchScoring.FallbackReason | advanced_recruitment/wizard/cv_scan_wizard.py:138-164 | no fallback reason equals the remote-analysis reason |
| MatchScoring.RunEnd | advanced_recruitment/wizard/cv_scan_wizard.py:134 | the run of word characters from a position ends at the first non-word character or the end |
| MatchScoring.RegexMatchIsNumberRun | advanced_recruitment/wizard/cv_scan_wizard.py:134 | the pattern matches a span exactly when it is a whole word run of one or two digits, or of three digits ending in 0 |
| MatchScoring.FindNumbers | advanced_recruitment/wizard/cv_scan_wizard.py:134 | every string `findall` returns is one or two digits, or three digits ending in 0 |
| MatchScoring.FindNumbersFirst | advanced_recruitment/wizard/cv_scan_wizard.py:134 | when `s[a..b]` is the first match at or after `i`, the scan lists it first and continues from `b`: the list is the matches in text order, none skipped |
| MatchScoring.FindNumbersEmpty | advanced_recruitment/wizard/cv_scan_wizard.py:134 | the scan from `i` is empty exactly when no match starts at or after `i` |
| MatchScoring.NoMatchInsideRun | advanced_recruitment/wizard/cv_scan_wizard.py:134 | no match starts inside a run of word characters |
| MatchScoring.FirstScore | advanced_recruitment/wizard/cv_scan_wizard.py:135-140 | the result is the value of the first match worth at most 100; there is none exactly when every match is worth more |
| MatchScoring.FindNumbersScore | advanced_recruitment/wizard/cv_scan_wizard.py:134-140 | when `s[a..b]` is the first match from `i` worth at most 100, the scan yields its value |
| MatchScoring.FindNumbersSomeScore | advanced_recruitment/wizard/cv_scan_wizard.py:134-140 | a value found by the scan is that of some match worth at most 100 with every earlier match worth more |
| MatchScoring.FindNumbersNoScore | advanced_recruitment/wizard/cv_scan_wizard.py:134-143 | the scan yields nothing exactly when every match from `i` is worth more than 100 |
| MatchScoring.ReplyScore | advanced_recruitment/wizard/cv_scan_wizard.py:134-140 | a score taken from the reply is at most 100 |
| MatchScoring.ReplyScoreIsFirstLowMatch | advanced_recruitment/wizard/cv_scan_wizard.py:134-140 | the reply yields `v` exactly when the first match in the reply worth at most 100 is worth `v` |
| MatchScoring.ReplyScoreNone | advanced_recruitment/wizard/cv_scan_wizard.py:134-143 | the reply yields no score exactly when every match in it is worth more than 100 |
| MatchScoring.ReplyScoreShortFirst | advanced_recruitment/wizard/cv_scan_wizard.py:134-140 | a first match of one or two digits is always the score |
| MatchScoring.PickScore | advanced_recruitment/wizard/cv_scan_wizard.py:135-140 | the loop with early return computes `FirstScore` |
| MatchScoring.MatchScore | advanced_recruitment/wizard/cv_scan_wizard.py:97-147 | the score lies in 0..100; the reason is the analysis reason exactly when the call returned status 200 with a candidate whose text holds a usable number, and then the score is that number; otherwise the result is the fallback |
| MatchScoring.GetMatchScore | advanced_recruitment/wizard/cv_scan_wizard.py:97-147 | the scan, the loop and the fallback together compute `MatchScore` |
| FieldExtraction.HeadLines | advanced_recruitment/wizard/cv_scan_wizard.py:85-87 | `text.split('\n')[:5]`: the first min(5, number of lines) lines, in order |
| FieldExtraction.LooksLikeName | advanced_recruitment/wizard/cv_scan_wizard.py:89-91 | a line is a name when it has two to four words, an ASCII letter and no label prefix (a predicate; used by `NameOf`) |
| FieldExtraction.FirstMapped | advanced_recruitment/wizard/cv_scan_wizard.py:87-93 | the scan's result, when there is one, is an accepted stripped line |
| FieldExtraction.NameOf | advanced_recruitment/wizard/cv_scan_wizard.py:84-93 | the name is "Candidate" or a line with two to four words, a letter and no label prefix |
| FieldExtraction.FirstMappedAt | advanced_recruitment/wizard/cv_scan_wizard.py:87-93 | the scan returns the first accepted line, stripped |
| FieldExtraction.FirstMappedNone | advanced_recruitment/wizard/cv_scan_wizard.py:86-93 | the scan returns nothing when no line is accepted |
| FieldExtraction.NameOfFirstNameLine | advanced_recruitment/wizard/cv_scan_wizard.py:87-93 | when the k-th of the first five stripped lines is the first that looks like a name, the name is that line |
| FieldExtraction.NameOfNoNameLine | advanced_recruitment/wizard/cv_scan_wizard.py:86-93 | when none of the first five stripped lines looks like a name, the name is "Candidate" |
| FieldExtraction.FirstOr | advanced_recruitment/wizard/cv_scan_wizard.py:76-82 | the first match, or the sentinel when there is none |
| FieldExtraction.ScanFirst | advanced_recruitment/wizard/cv_scan_wizard.py:87-93 | the loop with `break` returns the first accepted stripped line |
| FieldExtraction.ExtractBasicInfo | advanced_recruitment/wizard/cv_scan_wizard.py:72-95 | email and phone are the first matches or "No email found" / "No phone found"; the name is `NameOf` of the text |
| CvScanWizard.CvUploadLine.constructor | advanced_recruitment/wizard/cv_scan_wizard.py:16-18 | a new line holds the given name and file |
| CvScanWizard.CvUploadLine.OnchangeFile | advanced_recruitment/wizard/cv_scan_wizard.py:20-23 | a line with a file and no name gets "uploaded_cv.pdf"; otherwise the name is unchanged |
| CvScanWizard.Uploads | advanced_recruitment/wizard/cv_scan_wizard.py:210 | one upload per line, in line order, with that line's name and file |
| CvScanWizard.EffectiveFilename | advanced_recruitment/wizard/cv_scan_wizard.py:218 | the name is never empty: the line's own name when set, "uploaded_cv.pdf" otherwise |
| CvScanWizard.UsableText | advanced_recruitment/wizard/cv_scan_wizard.py:224 | usable text is at least ten characters long (it must be, once stripped) |
| CvScanWizard.RawText | advanced_recruitment/wizard/cv_scan_wizard.py:241 | the stored summary is "AI Analysis: " + reason + "\n\nExtracted Text: ", then exactly the first min(800, length) characters of the text, then "..." |
| CvScanWizard.ProcessUpload | advanced_recruitment/wizard/cv_scan_wizard.py:211-244 | an upload becomes a record only if it has a file, and the record keeps that file |
| CvScanWizard.ProcessUploadContents | advanced_recruitment/wizard/cv_scan_wizard.py:211-244 | an upload becomes a record exactly when it has a file that decodes to text of at least ten characters once stripped; the record carries the extracted fields, the score in 0..100, the name used, and "AI Analysis: " + reason + the first 800 characters + "..." |
| CvScanWizard.KeptValues | advanced_recruitment/wizard/cv_scan_wizard.py:205-252 | no more records than upload lines |
| CvScanWizard.KeptValuesStep | advanced_recruitment/wizard/cv_scan_wizard.py:210-252 | each line adds its record, if any, at the end |
| CvScanWizard.CreateRecords | advanced_recruitment/wizard/cv_scan_wizard.py:205-252 | the store holds exactly the new records, one per usable upload, in upload order; `processed_count` is their number; they are all fresh |
| CvScanWizard.Ids | advanced_recruitment/wizard/cv_scan_wizard.py:266 | the domain lists the selected records' ids, in order |
| CvScanWizard.Selection | advanced_recruitment/wizard/cv_scan_wizard.py:259 | the selection is a prefix of the score-sorted records, no longer than the records |
| CvScanWizard.Label | advanced_recruitment/wizard/cv_scan_wizard.py:263 | the window title is "Top ", the selected count in decimal, " CVs (Processed: ", the processed count in decimal and ")", with nothing else |
| CvScanWizard.ShowsNumberReadsBack | advanced_recruitment/wizard/cv_scan_wizard.py:263 | a count shown in the title is read back exactly by `int` |
| CvScanWizard.SelectionSize | advanced_recruitment/wizard/cv_scan_wizard.py:259 | for `top_n >= 0` there are min(`top_n`, processed) selected records; a negative `top_n` drops that many from the end |
| CvScanWizard.PrefixDominates | advanced_recruitment/wizard/cv_scan_wizard.py:259 | taking a prefix of a score-descending list leaves out nothing that scores higher than what it keeps |
| CvScanWizard.SelectionIsBest | advanced_recruitment/wizard/cv_scan_wizard.py:259 | the selection is drawn from the records, highest first, and no record left out scores above a selected one |
| CvScanWizard.SelectionIsStable | advanced_recruitment/wizard/cv_scan_wizard.py:259 | among equal scores the earliest created records are the ones selected, in creation order |
| CvScanWizard.DefaultNameIsFallback | advanced_recruitment/wizard/cv_scan_wizard.py:86 | the extraction's fallback name is the resume's default name, "Candidate" |
| CvScanWizard.CvScanWizard.constructor | advanced_recruitment/wizard/cv_scan_wizard.py:30-32 | `top_n` defaults to 3 |
| CvScanWizard.CvScanWizard.ActionGenerateTop | advanced_recruitment/wizard/cv_scan_wizard.py:193-268 | a blank job description, no upload lines, or no processed CV each give their user error and leave the store as before; otherwise the store holds exactly this run's records, and the result names "Top n CVs (Processed: m)" and lists the ids of the `top_n` best |
| PyStrings.Strip | advanced_recruitment/wizard/cv_scan_wizard.py:198 | neither end of a stripped text is whitespace |
| PyStrings.StripIsTrimmedPiece | advanced_recruitment/wizard/cv_scan_wizard.py:88 | a stripped line is a contiguous piece of the line with only whitespace around it |
| PyStrings.TrimLeft | advanced_recruitment/wizard/cv_scan_wizard.py:88 | a suffix of the text that does not start with whitespace |
| PyStrings.TrimRight | advanced_recruitment/wizard/cv_scan_wizard.py:88 | a prefix of the text that does not end with whitespace |
| PyStrings.TrimLeftRemovesSpace | advanced_recruitment/wizard/cv_scan_wizard.py:224 | everything removed at the front is whitespace |
| PyStrings.TrimRightRemovesSpace | advanced_recruitment/wizard/cv_scan_wizard.py:224 | everything removed at the back is whitespace |
| PyStrings.TakeWordMaximal | advanced_recruitment/wizard/cv_scan_wizard.py:151 | a word stops only at whitespace or at the end |
| PyStrings.Words | advanced_recruitment/wizard/cv_scan_wizard.py:89 | `split()` yields non-empty words without whitespace |
| PyStrings.WordsFirst | advanced_recruitment/wizard/cv_scan_wizard.py:89 | the first word is the first maximal non-whitespace run, and the rest are the words of the text after it |
| PyStrings.WordsNone | advanced_recruitment/wizard/cv_scan_wizard.py:89 | `split()` is empty exactly when the text is all whitespace |
| PyStrings.TakeWordOfRun | advanced_recruitment/wizard/cv_scan_wizard.py:151 | a non-whitespace prefix that ends at whitespace or the end is the word taken |
| PyStrings.SplitOn | advanced_recruitment/wizard/cv_scan_wizard.py:85 | `split('\n')` gives at least one part, and no part holds a newline |
| PyStrings.JoinSplit | advanced_recruitment/wizard/cv_scan_wizard.py:85 | joining the parts with newlines gives back the text |
| PyStrings.SliceTo | advanced_recruitment/wizard/cv_scan_wizard.py:259 | `s[:n]` is a prefix of min(n, len) elements, or of len + n when n is negative |
| PyStrings.Lower | advanced_recruitment/wizard/cv_scan_wizard.py:91 | each character is lower-cased in place |
| PyStrings.NatToString | advanced_recruitment/wizard/cv_scan_wizard.py:263 | `str(n)` is a non-empty string of digits with no leading zero |
| PyStrings.NatToStringRoundTrip | advanced_recruitment/wizard/cv_scan_wizard.py:160 | `int(str(n)) == n` |
| PyStrings.DigitsValueBound | advanced_recruitment/wizard/cv_scan_wizard.py:136 | one, two and three digits are worth at most 9, 99 and 999 |

## Left out

- Text extraction from PDF and DOCX, and UTF-8 decoding with `errors='ignore'` (cv_scan_wizard.py:34-70). These are foreign libraries. `_extract_text` is a collaborator returning the stripped text.
- base64 decoding (cv_scan_wizard.py:217) is a collaborator. A failure to decode skips the line, as the `except` does.
- The remote request (cv_scan_wizard.py:99-130) is left out: API key, URL, prompt, headers, timeout and JSON navigation. It is network I/O. Only its outcome is modelled: raised, or a status with the candidate texts.
- `_extract_json_from_response` (cv_scan_wizard.py:166-191) is never called and relies on `json.loads`.
- The remote call's outcome (`Collaborators.service`) is a function of the job text and the CV text, so two uploads with the same extracted text get the same outcome and score. The add-on makes an independent request per upload (cv_scan_wizard.py:123, called from :232); one of them can time out or be answered differently while another succeeds. Runs where equal texts get different outcomes are not covered by `ActionGenerateTop`'s contract.
- The email and phone regular expressions (cv_scan_wizard.py:75, 80) are not modelled. Their `findall` results are inputs.
- PyStrings.IsWordChar: `\b` and `\w` are taken over ASCII letters, digits and `_`. Python's `str` patterns use Unicode word characters.
- PyStrings.Lower: only ASCII letters are lower-cased. Python's `str.lower` is Unicode-wide.
- FieldExtraction.LooksLikeName: `isalpha` is taken as an ASCII letter test. Python's `str.isalpha` accepts every Unicode letter.
- Scores are exact reals. Floating-point division and the `Float(6, 2)` rounding on storage are not modelled.
- An exception raised by `create` or by the name extraction inside the loop (cv_scan_wizard.py:250-252) is not modelled. In the model these steps cannot fail.
- The logging calls, the `application_date` timestamp and the `wizard_id` link are left out.
- The action's fields other than its name and id domain are left out: `type`, `res_model`, `view_mode` and `target` are constants.
- ResumeModel.ResumeStore.Search: the model fixes a stable order among equal scores. Odoo's `_order = "score desc"` leaves ties to the database.
- The store has no concurrency; Odoo's transaction handling beyond the rollback of a `UserError` is left out.
- advanced_recruitment/__manifest__.py is packaging configuration only.
