/**
 * The stored candidate resume (`advanced_recruitment.resume`): its fields,
 * the status bucket computed from the score, the store's default order
 * (`score desc`) and the store itself, which the wizard wipes and fills.
 */
module ResumeModel {
  import opened Wrappers

  type Bytes = seq<bv8>

  /** The `candidate_name` field default. */
  const DEFAULT_CANDIDATE_NAME := "Candidate"

  datatype Status = Excellent | Best | Good | Average | Normal | Poor

  /** Position of a status on the scale, `Poor` lowest. */
  function Rank(s: Status): nat {
    match s
    case Poor => 0
    case Normal => 1
    case Average => 2
    case Good => 3
    case Best => 4
    case Excellent => 5
  }

  /** The status a score falls into; every threshold belongs to the higher bucket. */
  function Bucket(score: real): (s: Status)
    ensures s == Excellent <==> 90.0 <= score
    ensures s == Best <==> 80.0 <= score < 90.0
    ensures s == Good <==> 70.0 <= score < 80.0
    ensures s == Average <==> 60.0 <= score < 70.0
    ensures s == Normal <==> 45.0 <= score < 60.0
    ensures s == Poor <==> score < 45.0
  {
    if score >= 90.0 then Excellent
    else if score >= 80.0 then Best
    else if score >= 70.0 then Good
    else if score >= 60.0 then Average
    else if score >= 45.0 then Normal
    else Poor
  }

  /** A higher score never lands in a lower bucket. */
  lemma BucketMonotone(s1: real, s2: real)
    requires s1 <= s2
    ensures Rank(Bucket(s1)) <= Rank(Bucket(s2))
  {
  }

  /** The values passed to `create`; a missing name takes the field default. */
  datatype ResumeValues = ResumeValues(
    candidateName: Option<string>,
    email: string,
    phone: string,
    sourceFilename: string,
    rawText: string,
    cvFile: Bytes,
    score: real)

  /** A stored resume. Only `status` changes after creation. */
  class Resume {
    const id: nat
    const candidateName: string
    const email: string
    const phone: string
    const sourceFilename: string
    const score: real
    const rawText: string
    const cvFile: Bytes
    /** `None` until the status is computed. */
    var status: Option<Status>

    /** The record carries `values`, with the name default applied. */
    predicate Holds(values: ResumeValues) {
      && candidateName == (if values.candidateName.Some? then values.candidateName.value
                           else DEFAULT_CANDIDATE_NAME)
      && email == values.email
      && phone == values.phone
      && sourceFilename == values.sourceFilename
      && rawText == values.rawText
      && cvFile == values.cvFile
      && score == values.score
    }

    constructor (id: nat, values: ResumeValues)
      ensures this.id == id && Holds(values) && status == None
    {
      this.id := id;
      candidateName := if values.candidateName.Some? then values.candidateName.value
                       else DEFAULT_CANDIDATE_NAME;
      email := values.email;
      phone := values.phone;
      sourceFilename := values.sourceFilename;
      rawText := values.rawText;
      cvFile := values.cvFile;
      score := values.score;
      status := None;
    }
  }

  /** `_compute_status` over a recordset: every record gets the bucket of its
      own score, and nothing but the status fields of these records changes. */
  method ComputeStatus(records: seq<Resume>)
    modifies records
    ensures forall k :: 0 <= k < |records| ==> records[k].status == Some(Bucket(records[k].score))
  {
    var i := 0;
    while i < |records|
      invariant 0 <= i <= |records|
      invariant forall k :: 0 <= k < i ==> records[k].status == Some(Bucket(records[k].score))
    {
      records[i].status := Some(Bucket(records[i].score));
      i := i + 1;
    }
  }

  // ---- ordering by score, highest first ------------------------------------

  predicate NonIncreasing(rs: seq<Resume>) {
    forall i, j :: 0 <= i < j < |rs| ==> rs[i].score >= rs[j].score
  }

  /** The records of `rs` whose score is `v`, in their order in `rs`. */
  function WithScore(rs: seq<Resume>, v: real): seq<Resume> {
    if rs == [] then []
    else (if rs[0].score == v then [rs[0]] else []) + WithScore(rs[1..], v)
  }

  /** Places `x` after every record scoring at least as much. */
  function InsertByScore(x: Resume, rs: seq<Resume>): (r: seq<Resume>)
    ensures |r| == |rs| + 1
  {
    if rs == [] || rs[0].score < x.score then [x] + rs
    else [rs[0]] + InsertByScore(x, rs[1..])
  }

  /** Stable sort by descending score, as `sorted(key=score, reverse=True)`. */
  function SortByScore(rs: seq<Resume>): (r: seq<Resume>)
    ensures |r| == |rs|
  {
    if rs == [] then [] else InsertByScore(rs[|rs| - 1], SortByScore(rs[..|rs| - 1]))
  }

  lemma {:induction false} InsertByScorePermutes(x: Resume, rs: seq<Resume>)
    ensures multiset(InsertByScore(x, rs)) == multiset(rs) + multiset{x}
  {
    if rs != [] && rs[0].score >= x.score {
      InsertByScorePermutes(x, rs[1..]);
      assert rs == [rs[0]] + rs[1..];
    }
  }

  /** Inserting keeps every score under a common bound. */
  lemma {:induction false} InsertByScoreBounded(x: Resume, rs: seq<Resume>, bound: real)
    requires x.score <= bound && forall k :: 0 <= k < |rs| ==> rs[k].score <= bound
    ensures forall k :: 0 <= k < |InsertByScore(x, rs)| ==> InsertByScore(x, rs)[k].score <= bound
  {
    if rs != [] && rs[0].score >= x.score {
      InsertByScoreBounded(x, rs[1..], bound);
    }
  }

  lemma ConsNonIncreasing(h: Resume, t: seq<Resume>)
    requires NonIncreasing(t) && forall k :: 0 <= k < |t| ==> t[k].score <= h.score
    ensures NonIncreasing([h] + t)
  {
    var s := [h] + t;
    forall i, j | 0 <= i < j < |s|
      ensures s[i].score >= s[j].score
    {
      assert s[j] == t[j - 1];
      if i > 0 {
        assert s[i] == t[i - 1];
      }
    }
  }

  lemma {:induction false} InsertByScoreSorted(x: Resume, rs: seq<Resume>)
    requires NonIncreasing(rs)
    ensures NonIncreasing(InsertByScore(x, rs))
  {
    if rs == [] || rs[0].score < x.score {
      ConsNonIncreasing(x, rs);
    } else {
      InsertByScoreSorted(x, rs[1..]);
      InsertByScoreBounded(x, rs[1..], rs[0].score);
      ConsNonIncreasing(rs[0], InsertByScore(x, rs[1..]));
    }
  }

  lemma {:induction false} WithScoreAppend(a: seq<Resume>, b: seq<Resume>, v: real)
    ensures WithScore(a + b, v) == WithScore(a, v) + WithScore(b, v)
  {
    if a == [] {
      assert a + b == b;
    } else {
      var head := if a[0].score == v then [a[0]] else [];
      assert (a + b)[0] == a[0] && (a + b)[1..] == a[1..] + b;
      assert WithScore(a + b, v) == head + WithScore(a[1..] + b, v);
      assert WithScore(a, v) == head + WithScore(a[1..], v);
      WithScoreAppend(a[1..], b, v);
    }
  }

  lemma {:induction false} WithScoreAbsent(rs: seq<Resume>, v: real)
    requires forall k :: 0 <= k < |rs| ==> rs[k].score < v
    ensures WithScore(rs, v) == []
  {
    if rs != [] {
      WithScoreAbsent(rs[1..], v);
    }
  }

  lemma {:induction false} InsertByScoreStable(x: Resume, rs: seq<Resume>, v: real)
    requires NonIncreasing(rs)
    ensures WithScore(InsertByScore(x, rs), v)
            == WithScore(rs, v) + (if x.score == v then [x] else [])
  {
    if rs == [] {
    } else if rs[0].score < x.score {
      if x.score == v {
        WithScoreAbsent(rs, v);
      }
      assert ([x] + rs)[1..] == rs;
    } else {
      InsertByScoreStable(x, rs[1..], v);
      var ins := [rs[0]] + InsertByScore(x, rs[1..]);
      assert ins[1..] == InsertByScore(x, rs[1..]);
    }
  }

  lemma {:induction false} SortByScoreSorted(rs: seq<Resume>)
    ensures NonIncreasing(SortByScore(rs))
  {
    if rs != [] {
      SortByScoreSorted(rs[..|rs| - 1]);
      InsertByScoreSorted(rs[|rs| - 1], SortByScore(rs[..|rs| - 1]));
    }
  }

  lemma {:induction false} SortByScorePermutes(rs: seq<Resume>)
    ensures multiset(SortByScore(rs)) == multiset(rs)
  {
    if rs != [] {
      var init := rs[..|rs| - 1];
      SortByScorePermutes(init);
      InsertByScorePermutes(rs[|rs| - 1], SortByScore(init));
      assert rs == init + [rs[|rs| - 1]];
    }
  }

  /** Records with equal scores keep their original relative order. */
  lemma {:induction false} SortByScoreStable(rs: seq<Resume>, v: real)
    ensures WithScore(SortByScore(rs), v) == WithScore(rs, v)
  {
    if rs != [] {
      var init := rs[..|rs| - 1];
      var x := rs[|rs| - 1];
      var sortedInit := SortByScore(init);
      assert SortByScore(rs) == InsertByScore(x, sortedInit);
      SortByScoreSorted(init);
      InsertByScoreStable(x, sortedInit, v);
      SortByScoreStable(init, v);
      assert rs == init + [x];
      WithScoreAppend(init, [x], v);
      assert WithScore([x], v) == (if x.score == v then [x] else []) by {
        assert [x][1..] == [];
      }
    }
  }

  // ---- the store -------------------------------------------------------------

  /** Every record's status is the bucket of its score, and ids are distinct
      and below the next id to hand out. */
  predicate Consistent(records: seq<Resume>, nextId: nat)
    reads records
  {
    && (forall k :: 0 <= k < |records| ==> records[k].status == Some(Bucket(records[k].score)))
    && (forall k :: 0 <= k < |records| ==> records[k].id < nextId)
    && (forall i, j :: 0 <= i < j < |records| ==> records[i].id != records[j].id)
  }

  /** The table of `advanced_recruitment.resume` records. */
  class ResumeStore {
    var records: seq<Resume>
    var nextId: nat

    predicate Valid()
      reads this, records
    {
      Consistent(records, nextId)
    }

    constructor ()
      ensures Valid() && records == []
    {
      records := [];
      nextId := 1;
    }

    /** `search([])` under the model's `_order`: every record, highest score first. */
    function Search(): (rs: seq<Resume>)
      reads this
      ensures NonIncreasing(rs) && multiset(rs) == multiset(records)
    {
      SortByScoreSorted(records);
      SortByScorePermutes(records);
      SortByScore(records)
    }

    /** `search([]).unlink()`: drops every record; ids are not reused. */
    method UnlinkAll()
      requires Valid()
      modifies this
      ensures Valid() && records == [] && nextId == old(nextId)
    {
      records := [];
    }

    /** `create(values)`: a fresh record with the next id, its status computed. */
    method Create(values: ResumeValues) returns (r: Resume)
      requires Valid()
      modifies this
      ensures Valid() && fresh(r)
      ensures records == old(records) + [r] && nextId == old(nextId) + 1
      ensures r.id == old(nextId) && r.Holds(values) && r.status == Some(Bucket(r.score))
    {
      r := new Resume(nextId, values);
      ComputeStatus([r]);
      assert [r][0] == r;
      records := records + [r];
      nextId := nextId + 1;
    }

    /** Puts back records saved earlier in the same transaction (the rollback of
        a failed action). */
    method Restore(saved: seq<Resume>)
      requires Consistent(saved, nextId)
      modifies this
      ensures Valid() && records == saved && nextId == old(nextId)
    {
      records := saved;
    }
  }
}
