/**
 * `_extract_basic_info`: the candidate's name, email and phone taken from the
 * extracted CV text. The email and phone regular expressions are given as
 * their lists of matches; the name comes from a scan of the first lines.
 */
module FieldExtraction {
  import opened Wrappers
  import opened PyStrings

  const FALLBACK_NAME := "Candidate"
  const NO_EMAIL := "No email found"
  const NO_PHONE := "No phone found"
  /** Lines starting with one of these (ignoring case) are not names. */
  const NON_NAME_PREFIXES: seq<string> := ["email", "phone", "mobile", "curriculum", "vitae"]
  /** Only this many leading lines are looked at. */
  const NAME_LINES := 5

  predicate HasNonNamePrefix(lowered: string) {
    exists p :: p in NON_NAME_PREFIXES && StartsWith(lowered, p)
  }

  /** A stripped line is taken as the name when it has two to four words, at
      least one letter, and no label prefix. */
  predicate LooksLikeName(line: string) {
    && 2 <= |Words(line)| <= 4
    && (exists k :: 0 <= k < |line| && IsAsciiLetter(line[k]))
    && !HasNonNamePrefix(Lower(line))
  }

  /** The first `f(x)`, for `x` in `xs` in order, that `accept` takes. */
  function FirstMapped<T, U>(xs: seq<T>, f: T -> U, accept: U -> bool): (r: Option<U>)
    ensures r.Some? ==> accept(r.value)
  {
    if xs == [] then None
    else if accept(f(xs[0])) then Some(f(xs[0]))
    else FirstMapped(xs[1..], f, accept)
  }

  /** `FirstMapped` finds nothing when `accept` takes no image. */
  lemma {:induction false} FirstMappedNone<T, U>(xs: seq<T>, f: T -> U, accept: U -> bool)
    requires forall k :: 0 <= k < |xs| ==> !accept(f(xs[k]))
    ensures FirstMapped(xs, f, accept) == None
  {
    if xs != [] {
      assert !accept(f(xs[0]));
      forall m | 0 <= m < |xs| - 1
        ensures !accept(f(xs[1..][m]))
      {
        assert xs[1..][m] == xs[m + 1];
      }
      FirstMappedNone(xs[1..], f, accept);
    }
  }

  /** The lines the name is looked for in: the first five of `text.split('\n')`. */
  function HeadLines(text: string): (lines: seq<string>)
    ensures |lines| == Min(NAME_LINES, |SplitOn(text, '\n')|)
    ensures lines == SplitOn(text, '\n')[..|lines|]
  {
    SliceTo(SplitOn(text, '\n'), NAME_LINES)
  }

  /** The extracted name: the first name-like line among the first five, or
      the fallback. */
  function NameOf(text: string): (name: string)
    ensures name == FALLBACK_NAME || LooksLikeName(name)
  {
    match FirstMapped(HeadLines(text), Strip, LooksLikeName)
    case Some(n) => n
    case None => FALLBACK_NAME
  }

  /** The first regex match, or the sentinel when there is none. */
  function FirstOr(matches: seq<string>, sentinel: string): (r: string)
    ensures r == sentinel || r in matches
    ensures matches != [] ==> r == matches[0]
  {
    if matches == [] then sentinel else matches[0]
  }

  /** `FirstMapped` returns the image of the first element `accept` takes. */
  lemma {:induction false} FirstMappedAt<T, U>(xs: seq<T>, f: T -> U, accept: U -> bool, k: nat)
    requires k < |xs| && accept(f(xs[k]))
    requires forall m :: 0 <= m < k ==> !accept(f(xs[m]))
    ensures FirstMapped(xs, f, accept) == Some(f(xs[k]))
  {
    if k > 0 {
      assert !accept(f(xs[0]));
      forall m | 0 <= m < k - 1
        ensures !accept(f(xs[1..][m]))
      {
        assert xs[1..][m] == xs[m + 1];
      }
      FirstMappedAt(xs[1..], f, accept, k - 1);
    }
  }

  /** One step of the scan behind `FirstMapped`. */
  lemma FirstMappedStep<T, U>(xs: seq<T>, f: T -> U, accept: U -> bool, i: nat)
    requires i < |xs|
    ensures FirstMapped(xs[i..], f, accept)
            == if accept(f(xs[i])) then Some(f(xs[i])) else FirstMapped(xs[i + 1..], f, accept)
  {
    assert xs[i..][0] == xs[i] && xs[i..][1..] == xs[i + 1..];
  }

  /** When the `k`-th of the first five lines is the first to look like a name
      once stripped, the name is that line, stripped. */
  lemma NameOfFirstNameLine(text: string, k: nat)
    requires k < |HeadLines(text)| && LooksLikeName(Strip(HeadLines(text)[k]))
    requires forall m :: 0 <= m < k ==> !LooksLikeName(Strip(HeadLines(text)[m]))
    ensures NameOf(text) == Strip(HeadLines(text)[k])
  {
    FirstMappedAt(HeadLines(text), Strip, LooksLikeName, k);
  }

  /** When none of the first five lines looks like a name, the name is the
      fallback. */
  lemma NameOfNoNameLine(text: string)
    requires forall k :: 0 <= k < |HeadLines(text)| ==> !LooksLikeName(Strip(HeadLines(text)[k]))
    ensures NameOf(text) == FALLBACK_NAME
  {
    FirstMappedNone(HeadLines(text), Strip, LooksLikeName);
  }

  /** The scan loop of `_extract_basic_info`: walk `xs` in order and stop at
      the first element whose image under `f` is accepted. */
  method ScanFirst<T, U>(xs: seq<T>, f: T -> U, accept: U -> bool) returns (found: Option<U>)
    ensures found == FirstMapped(xs, f, accept)
  {
    var i := 0;
    assert xs[i..] == xs;
    while i < |xs|
      invariant 0 <= i <= |xs|
      invariant FirstMapped(xs, f, accept) == FirstMapped(xs[i..], f, accept)
    {
      FirstMappedStep(xs, f, accept, i);
      var y := f(xs[i]);
      if accept(y) {
        return Some(y);
      }
      i := i + 1;
    }
    assert xs[i..] == [];
    return None;
  }

  /** `_extract_basic_info`, given the email and phone pattern matches of `text`. */
  method ExtractBasicInfo(text: string, emails: seq<string>, phones: seq<string>)
    returns (name: string, email: string, phone: string)
    ensures email == FirstOr(emails, NO_EMAIL) && phone == FirstOr(phones, NO_PHONE)
    ensures name == NameOf(text)
  {
    email := if emails != [] then emails[0] else NO_EMAIL;
    phone := if phones != [] then phones[0] else NO_PHONE;
    var found := ScanFirst(HeadLines(text), Strip, LooksLikeName);
    name := if found.Some? then found.value else FALLBACK_NAME;
  }
}
