/**
 * The CV scan wizard: its upload lines, and `action_generate_top`, which
 * wipes the resume store, turns every readable upload into a scored resume
 * record and returns the `top_n` best of them.
 *
 * File decoding, text extraction, the email and phone patterns and the remote
 * scoring call are collaborators (`Collaborators`); everything else is modelled.
 */
module CvScanWizard {
  import opened Wrappers
  import opened PyStrings
  import opened ResumeModel
  import opened MatchScoring
  import opened FieldExtraction

  /** Filename given to an upload that has a file but no name. */
  const DEFAULT_UPLOAD_NAME := "uploaded_cv.pdf"
  /** Extracted text shorter than this, once stripped, is "no text". */
  const MIN_TEXT_LENGTH := 10
  /** How much of the extracted text is kept in `raw_text`. */
  const EXCERPT_LENGTH := 800

  const NO_JOB_MESSAGE := "Please enter a job description"
  const NO_UPLOAD_MESSAGE := "Please upload at least one CV"
  const NOTHING_PROCESSED_MESSAGE := "No valid CVs could be processed. Please check your files and try again."

  /** The name extraction falls back to the same name the resume field defaults to. */
  lemma DefaultNameIsFallback()
    ensures FALLBACK_NAME == DEFAULT_CANDIDATE_NAME
  {
  }

  /** A temporary upload row; an empty `file` or `filename` is an unset field. */
  class CvUploadLine {
    var filename: string
    var file: Bytes

    constructor (filename: string, file: Bytes)
      ensures this.filename == filename && this.file == file
    {
      this.filename := filename;
      this.file := file;
    }

    /** `_onchange_file`: a file without a name gets the default name. */
    method OnchangeFile()
      modifies this`filename
      ensures file != [] && old(filename) == "" ==> filename == DEFAULT_UPLOAD_NAME
      ensures !(file != [] && old(filename) == "") ==> filename == old(filename)
    {
      if file != [] && filename == "" {
        filename := DEFAULT_UPLOAD_NAME;
      }
    }
  }

  /** The contents of one upload line. */
  datatype Upload = Upload(filename: string, file: Bytes)

  function Uploads(lines: seq<CvUploadLine>): (items: seq<Upload>)
    reads lines
    ensures |items| == |lines|
    ensures forall k :: 0 <= k < |lines| ==> items[k] == Upload(lines[k].filename, lines[k].file)
  {
    seq(|lines|, k requires 0 <= k < |lines| reads lines => Upload(lines[k].filename, lines[k].file))
  }

  /** What the wizard calls but does not define. */
  datatype Collaborators = Collaborators(
    /** base64 decoding of the stored file; `None` when it raises */
    decode: Bytes -> Option<Bytes>,
    /** `_extract_text`: PDF, DOCX or UTF-8 text of the file, stripped */
    extractText: (Bytes, string) -> string,
    /** `re.findall` of the email pattern */
    emailMatches: string -> seq<string>,
    /** `re.findall` of the phone pattern */
    phoneMatches: string -> seq<string>,
    /** the remote scoring call for (job text, CV text) */
    service: (string, string) -> ServiceOutcome)

  /** `line.filename or "uploaded_cv.pdf"`. */
  function EffectiveFilename(u: Upload): (name: string)
    ensures name != ""
    ensures u.filename != "" ==> name == u.filename
    ensures u.filename == "" ==> name == DEFAULT_UPLOAD_NAME
  {
    if u.filename == "" then DEFAULT_UPLOAD_NAME else u.filename
  }

  /** The stored summary: the scorer's reason, then the first 800 characters of the text. */
  function RawText(reason: string, text: string): (r: string)
    ensures |r| == 34 + |reason| + Min(|text|, EXCERPT_LENGTH)
    ensures var head := "AI Analysis: " + reason + "\n\nExtracted Text: ";
            var e := r[|head|..|r| - 3];
            StartsWith(r, head) && |e| == Min(|text|, EXCERPT_LENGTH) && e == text[..|e|]
            && r[|r| - 3..] == "..."
  {
    "AI Analysis: " + reason + "\n\nExtracted Text: " + SliceTo(text, EXCERPT_LENGTH) + "..."
  }

  predicate UsableText(text: string)
    ensures UsableText(text) ==> |text| >= MIN_TEXT_LENGTH
  {
    text != "" && |Strip(text)| >= MIN_TEXT_LENGTH
  }

  /** The record one upload becomes, or `None` when it is skipped: no file, a
      file that does not decode, or too little text. */
  function ProcessUpload(env: Collaborators, job: string, u: Upload): (r: Option<ResumeValues>)
    ensures r.Some? ==> u.file != [] && r.value.cvFile == u.file
  {
    if u.file == [] then None
    else match env.decode(u.file)
      case None => None
      case Some(data) =>
        var filename := EffectiveFilename(u);
        var text := env.extractText(data, filename);
        if !UsableText(text) then None
        else
          var m := MatchScore(job, text, env.service(job, text));
          Some(ResumeValues(Some(NameOf(text)), FirstOr(env.emailMatches(text), NO_EMAIL),
                            FirstOr(env.phoneMatches(text), NO_PHONE), filename,
                            RawText(m.reason, text), u.file, m.score))
  }

  /** An upload becomes a record exactly when it has a file that decodes to
      usable text; the record carries the extracted fields, the scorer's
      result, the upload's name (or the default) and the original file. */
  lemma ProcessUploadContents(env: Collaborators, job: string, u: Upload)
    ensures var r := ProcessUpload(env, job, u);
            && (r.Some? <==> u.file != [] && env.decode(u.file).Some?
                             && UsableText(env.extractText(env.decode(u.file).value, EffectiveFilename(u))))
            && (r.Some? ==>
                  var text := env.extractText(env.decode(u.file).value, EffectiveFilename(u));
                  var m := MatchScore(job, text, env.service(job, text));
                  && r.value.candidateName == Some(NameOf(text))
                  && r.value.email == FirstOr(env.emailMatches(text), NO_EMAIL)
                  && r.value.phone == FirstOr(env.phoneMatches(text), NO_PHONE)
                  && r.value.sourceFilename == EffectiveFilename(u)
                  && r.value.cvFile == u.file
                  && 0.0 <= r.value.score <= 100.0
                  && r.value.score == m.score
                  && r.value.rawText == RawText(m.reason, text))
  {
  }

  /** The values `step` yields for `items`, in order, skipping the `None`s. */
  function KeptValues<T, U>(items: seq<T>, step: T -> Option<U>): (out: seq<U>)
    ensures |out| <= |items|
  {
    if items == [] then []
    else
      var last := step(items[|items| - 1]);
      KeptValues(items[..|items| - 1], step) + (if last.Some? then [last.value] else [])
  }

  /** Extending the items by one extends the kept values by that item's value, if any. */
  lemma KeptValuesStep<T, U>(items: seq<T>, step: T -> Option<U>, i: nat)
    requires i < |items|
    ensures var next := step(items[i]);
            KeptValues(items[..i + 1], step)
            == KeptValues(items[..i], step) + (if next.Some? then [next.value] else [])
  {
    assert items[..i + 1][..i] == items[..i];
  }

  function UploadStep(env: Collaborators, job: string): Upload -> Option<ResumeValues> {
    u => ProcessUpload(env, job, u)
  }

  /** The records a run creates, in upload order. */
  function Processed(env: Collaborators, job: string, items: seq<Upload>): seq<ResumeValues> {
    KeptValues(items, UploadStep(env, job))
  }

  /** The result: the list view's label and the ids it is filtered on. */
  datatype ActWindow = ActWindow(name: string, recordIds: seq<nat>)

  function Ids(rs: seq<Resume>): (ids: seq<nat>)
    ensures |ids| == |rs| && forall k :: 0 <= k < |rs| ==> ids[k] == rs[k].id
  {
    seq(|rs|, k requires 0 <= k < |rs| => rs[k].id)
  }

  /** `n` in decimal can be read back from `r` at position `at`. */
  predicate ShowsNumber(r: string, at: nat, n: nat) {
    var d := NatToString(n);
    at + |d| <= |r| && r[at..at + |d|] == d
  }

  lemma ShowsNumberIn(pre: string, n: nat, post: string)
    ensures ShowsNumber(pre + NatToString(n) + post, |pre|, n)
  {
    var d := NatToString(n);
    assert (pre + d + post)[|pre|..|pre| + |d|] == d;
  }

  /** The window title; both counts can be read back from it in decimal. */
  function Label(shown: nat, processed: nat): (r: string)
    ensures StartsWith(r, "Top ")
    ensures ShowsNumber(r, 4, shown)
    ensures ShowsNumber(r, 4 + |NatToString(shown)| + 17, processed)
    ensures var d := NatToString(shown);
            r[4 + |d|..4 + |d| + 17] == " CVs (Processed: "
            && |r| == 4 + |d| + 17 + |NatToString(processed)| + 1 && r[|r| - 1] == ')'
  {
    var head := "Top " + NatToString(shown) + " CVs (Processed: ";
    ShowsNumberIn("Top ", shown, " CVs (Processed: " + NatToString(processed) + ")");
    ShowsNumberIn(head, processed, ")");
    head + NatToString(processed) + ")"
  }

  /** A number shown in a label is read back by `int`. */
  lemma ShowsNumberReadsBack(r: string, at: nat, n: nat)
    requires ShowsNumber(r, at, n)
    ensures var e := at + |NatToString(n)|; AllDigits(r[at..e]) && DigitsValue(r[at..e]) == n
  {
    NatToStringRoundTrip(n);
  }

  /** `sorted(records, key=score, reverse=True)[:top_n]`. */
  function Selection(rs: seq<Resume>, topN: int): (r: seq<Resume>)
    ensures |r| <= |rs| && r == SortByScore(rs)[..|r|]
  {
    SliceTo(SortByScore(rs), topN)
  }

  lemma {:induction false} WithScorePrefix(rs: seq<Resume>, m: nat, v: real)
    requires m <= |rs|
    ensures var w := WithScore(rs[..m], v);
            |w| <= |WithScore(rs, v)| && w == WithScore(rs, v)[..|w|]
  {
    if m > 0 {
      assert rs[..m][1..] == rs[1..][..m - 1];
      WithScorePrefix(rs[1..], m - 1, v);
    } else {
      assert rs[..m] == [];
    }
  }

  /** The selection holds `top_n` records, fewer when fewer were processed;
      a negative `top_n` drops that many from the end, as a Python slice does. */
  lemma SelectionSize(rs: seq<Resume>, topN: int)
    ensures topN >= 0 ==> |Selection(rs, topN)| == Min(topN, |rs|)
    ensures topN < 0 ==> |Selection(rs, topN)| == Max(0, |rs| + topN)
  {
    SortByScorePermutes(rs);
    assert |multiset(SortByScore(rs))| == |multiset(rs)|;
  }

  /** In a score-descending list, every record of a prefix scores at least as
      high as every record after it. */
  lemma PrefixDominates(sorted: seq<Resume>, m: nat)
    requires NonIncreasing(sorted) && m <= |sorted|
    ensures forall r, r' :: r in sorted[..m] && r' in sorted[m..] ==> r.score >= r'.score
  {
    forall r, r' | r in sorted[..m] && r' in sorted[m..] ensures r.score >= r'.score {
      var i :| 0 <= i < m && sorted[..m][i] == r;
      var j :| 0 <= j < |sorted| - m && sorted[m..][j] == r';
      assert sorted[i] == r && sorted[m + j] == r';
    }
  }

  /** The selected records are processed records, highest score first, and no
      record left out scores above a selected one. */
  lemma {:induction false} SelectionIsBest(rs: seq<Resume>, topN: int)
    ensures NonIncreasing(Selection(rs, topN))
    ensures multiset(Selection(rs, topN)) <= multiset(rs)
    ensures forall r, r' :: r in Selection(rs, topN) && r' in rs && r' !in Selection(rs, topN)
                            ==> r.score >= r'.score
  {
    var sorted := SortByScore(rs);
    var top := Selection(rs, topN);
    var rest := sorted[|top|..];
    SortByScoreSorted(rs);
    SortByScorePermutes(rs);
    assert sorted == top + rest;
    assert multiset(sorted) == multiset(top) + multiset(rest);
    PrefixDominates(sorted, |top|);
    forall r' | r' in rs && r' !in top ensures r' in rest {
      assert r' in multiset(sorted) && r' !in multiset(top);
    }
  }

  /** Among records with equal scores, the selected ones are the earliest
      processed, in processing order. */
  lemma SelectionIsStable(rs: seq<Resume>, topN: int, v: real)
    ensures var w := WithScore(Selection(rs, topN), v);
            |w| <= |WithScore(rs, v)| && w == WithScore(rs, v)[..|w|]
  {
    var sorted := SortByScore(rs);
    WithScorePrefix(sorted, |Selection(rs, topN)|, v);
    SortByScoreStable(rs, v);
  }

  /** The `k`-th record carries the `k`-th processed values, for every `k`. */
  predicate StoredAsProcessed(records: seq<Resume>, processed: seq<ResumeValues>) {
    |records| == |processed| && forall k :: 0 <= k < |records| ==> records[k].Holds(processed[k])
  }

  lemma StoredAsProcessedExtend(records: seq<Resume>, processed: seq<ResumeValues>, r: Resume, v: ResumeValues)
    requires StoredAsProcessed(records, processed) && r.Holds(v)
    ensures StoredAsProcessed(records + [r], processed + [v])
  {
    var rs, ps := records + [r], processed + [v];
    forall k | 0 <= k < |rs|
      ensures rs[k].Holds(ps[k])
    {
      if k < |records| {
        assert rs[k] == records[k] && ps[k] == processed[k];
      }
    }
  }

  /** The loop over the upload lines: one new record per usable upload, in
      upload order, and the store holding exactly those. */
  method CreateRecords(store: ResumeStore, step: Upload -> Option<ResumeValues>, items: seq<Upload>)
    returns (cvRecords: seq<Resume>, processedCount: nat)
    requires store.Valid() && store.records == []
    modifies store
    ensures store.Valid() && store.records == cvRecords
    ensures store.nextId == old(store.nextId) + |cvRecords|
    ensures processedCount == |cvRecords|
    ensures StoredAsProcessed(cvRecords, KeptValues(items, step))
    ensures forall r <- cvRecords :: fresh(r)
  {
    cvRecords := [];
    processedCount := 0;
    for i := 0 to |items|
      invariant store.Valid()
      invariant store.records == cvRecords
      invariant store.nextId == old(store.nextId) + |cvRecords|
      invariant processedCount == |cvRecords|
      invariant StoredAsProcessed(cvRecords, KeptValues(items[..i], step))
      invariant forall r <- cvRecords :: fresh(r)
    {
      var values := step(items[i]);
      KeptValuesStep(items, step, i);
      if values.Some? {
        var rec := store.Create(values.value);
        StoredAsProcessedExtend(cvRecords, KeptValues(items[..i], step), rec, values.value);
        cvRecords := cvRecords + [rec];
        processedCount := processedCount + 1;
      }
    }
    assert items[..|items|] == items;
  }

  class CvScanWizard {
    var jobDescription: string
    var topN: int
    var uploadLines: seq<CvUploadLine>

    /** A wizard with the field default `top_n = 3`. */
    constructor (jobDescription: string, uploadLines: seq<CvUploadLine>)
      ensures this.jobDescription == jobDescription && topN == 3 && this.uploadLines == uploadLines
    {
      this.jobDescription := jobDescription;
      topN := 3;
      this.uploadLines := uploadLines;
    }

    /** `action_generate_top`. On a `UserError` the transaction rolls back, so the
        store is as before; otherwise the store holds exactly this run's records. */
    method ActionGenerateTop(store: ResumeStore, env: Collaborators) returns (res: Result<ActWindow, string>)
      requires store.Valid()
      modifies store
      ensures store.Valid()
      ensures res.Err? ==> store.records == old(store.records)
      ensures Strip(jobDescription) == "" ==> res == Err(NO_JOB_MESSAGE)
      ensures Strip(jobDescription) != "" && uploadLines == [] ==> res == Err(NO_UPLOAD_MESSAGE)
      ensures Strip(jobDescription) != "" && uploadLines != [] ==>
                var processed := Processed(env, Strip(jobDescription), old(Uploads(uploadLines)));
                && (processed == [] ==> res == Err(NOTHING_PROCESSED_MESSAGE))
                && (processed != [] ==>
                      && StoredAsProcessed(store.records, processed)
                      && (forall r <- store.records :: fresh(r))
                      && var top := Selection(store.records, topN);
                         res == Ok(ActWindow(Label(|top|, |processed|), Ids(top))))
    {
      var saved := store.records;
      var items := Uploads(uploadLines);
      store.UnlinkAll();

      var jobText := Strip(jobDescription);
      if jobText == "" {
        store.Restore(saved);
        return Err(NO_JOB_MESSAGE);
      }
      if uploadLines == [] {
        store.Restore(saved);
        return Err(NO_UPLOAD_MESSAGE);
      }

      var cvRecords, processedCount := CreateRecords(store, UploadStep(env, jobText), items);

      if cvRecords == [] {
        store.Restore(saved);
        return Err(NOTHING_PROCESSED_MESSAGE);
      }

      var top := SliceTo(SortByScore(cvRecords), topN);
      return Ok(ActWindow(Label(|top|, processedCount), Ids(top)));
    }
  }
}
