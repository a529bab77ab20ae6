/** The complaint submission page: the list of attached files, the
    submitting / success / reference-number flags, the generated reference
    number, and the validation rules of the form fields, including the
    e-mail pattern. */
module SubmitPage {
  import opened Wrappers

  // ---------------------------------------------------------------------
  // Decimal rendering of the reference number
  // ---------------------------------------------------------------------

  predicate IsDigit(c: char)
  {
    '0' <= c <= '9'
  }

  function DigitChar(d: nat): (c: char)
    requires d < 10
    ensures IsDigit(c) && c as int - '0' as int == d
  {
    ('0' as int + d) as char
  }

  /** The decimal text of `n`, as a JavaScript number converts to a string when
      it is a non-negative integer: no sign, no leading zero. */
  function DecimalString(n: nat): (s: string)
    ensures |s| >= 1
    ensures forall i :: 0 <= i < |s| ==> IsDigit(s[i])
    ensures n >= 10 ==> s[0] != '0'
    decreases n
  {
    if n < 10 then [DigitChar(n)]
    else DecimalString(n / 10) + [DigitChar(n % 10)]
  }

  /** Reads a string of decimal digits back as a number. */
  function ParseDecimal(s: string): (n: nat)
    requires forall i :: 0 <= i < |s| ==> IsDigit(s[i])
  {
    if s == [] then 0
    else
      var last := s[|s| - 1];
      assert IsDigit(last);
      ParseDecimal(s[..|s| - 1]) * 10 + (last as int - '0' as int)
  }

  /** Rendering and reading back are inverse. */
  lemma {:induction false} ParseDecimalString(n: nat)
    ensures ParseDecimal(DecimalString(n)) == n
    decreases n
  {
    var s := DecimalString(n);
    if n >= 10 {
      ParseDecimalString(n / 10);
      assert s[..|s| - 1] == DecimalString(n / 10);
    }
  }

  function Pow10(k: nat): (p: nat)
    ensures p >= 1
  {
    if k == 0 then 1 else 10 * Pow10(k - 1)
  }

  /** A number with `k` decimal digits is written with exactly `k` characters. */
  lemma {:induction false} DecimalStringLength(n: nat, k: nat)
    requires k >= 1 && Pow10(k - 1) <= n < Pow10(k)
    ensures |DecimalString(n)| == k
    decreases k
  {
    if k > 1 {
      var p := Pow10(k - 2);
      assert Pow10(k - 1) == 10 * p && Pow10(k) == 10 * Pow10(k - 1);
      assert p <= n / 10 < Pow10(k - 1);
      DecimalStringLength(n / 10, k - 1);
    }
  }

  // ---------------------------------------------------------------------
  // Reference numbers
  // ---------------------------------------------------------------------

  const IdPrefix: string := "CMP"

  /** A random draw scaled to 900000 possible offsets and floored: an integer
      in [0, 900000). */
  predicate IsDraw(draw: int)
  {
    0 <= draw < 900000
  }

  /** The reference number: "CMP" followed by the decimal text of 100000 plus
      the draw. Flooring the sum of 100000 and a real equals 100000 plus the
      floor of the real, so the draw is taken already floored. */
  function GeneratedId(draw: int): (id: string)
    requires IsDraw(draw)
    ensures |id| == 9 && id[..3] == IdPrefix
    ensures forall i :: 3 <= i < 9 ==> IsDigit(id[i])
    ensures id[3] != '0'
    ensures 100000 <= ParseDecimal(id[3..]) <= 999999
    ensures ParseDecimal(id[3..]) == 100000 + draw
  {
    var digits := DecimalString(100000 + draw);
    assert Pow10(5) == 100000 && Pow10(6) == 1000000 by {
      assert Pow10(1) == 10 && Pow10(2) == 100 && Pow10(3) == 1000 && Pow10(4) == 10000;
    }
    DecimalStringLength(100000 + draw, 6);
    ParseDecimalString(100000 + draw);
    var id := IdPrefix + digits;
    assert id[3..] == digits;
    id
  }

  /** The shape every generated reference number has. */
  ghost predicate IsComplaintId(id: string)
  {
    && |id| == 9 && id[..3] == IdPrefix
    && (forall i :: 3 <= i < 9 ==> IsDigit(id[i]))
    && id[3] != '0'
  }

  /** Generated numbers have the reference-number shape, and different draws
      give different numbers. */
  lemma GeneratedIdInjective(d1: int, d2: int)
    requires IsDraw(d1) && IsDraw(d2)
    ensures IsComplaintId(GeneratedId(d1))
    ensures d1 != d2 ==> GeneratedId(d1) != GeneratedId(d2)
  {
  }

  // ---------------------------------------------------------------------
  // The e-mail pattern  ^[A-Z0-9._%+-]+@[A-Z0-9.-]+\.[A-Z]{2,}$  (flag i)
  // ---------------------------------------------------------------------

  /** `[A-Z]` under the case-insensitive flag: ASCII letters of either case. */
  predicate IsLetter(c: char)
  {
    ('A' <= c <= 'Z') || ('a' <= c <= 'z')
  }

  /** `[A-Z0-9._%+-]` under the case-insensitive flag. */
  predicate IsLocalChar(c: char)
  {
    IsLetter(c) || IsDigit(c) || c == '.' || c == '_' || c == '%' || c == '+' || c == '-'
  }

  /** `[A-Z0-9.-]` under the case-insensitive flag. */
  predicate IsDomainChar(c: char)
  {
    IsLetter(c) || IsDigit(c) || c == '.' || c == '-'
  }

  /** The pattern read as it is written, for an `@` at `at` and the dot before
      the final run at `d`: a non-empty local run, `@`, a non-empty domain run,
      the dot, and at least two letters up to the end. */
  ghost predicate EmailSplitAt(s: string, at: int, d: int)
  {
    && 0 < at && at + 1 < d && d + 3 <= |s|
    && s[at] == '@' && s[d] == '.'
    && (forall i :: 0 <= i < at ==> IsLocalChar(s[i]))
    && (forall i :: at < i < d ==> IsDomainChar(s[i]))
    && (forall i :: d < i < |s| ==> IsLetter(s[i]))
  }

  ghost predicate MatchesEmailPattern(s: string)
  {
    exists at, d :: EmailSplitAt(s, at, d)
  }

  /** The first index of `c` in `s`. */
  function IndexOf(s: string, c: char): (r: Option<nat>)
    ensures r.Some? ==> r.value < |s| && s[r.value] == c && forall i :: 0 <= i < r.value ==> s[i] != c
    ensures r.None? <==> c !in s
  {
    if s == [] then None
    else if s[0] == c then Some(0)
    else
      match IndexOf(s[1..], c)
      case None => None
      case Some(i) => Some(i + 1)
  }

  /** The last index of `c` in `s`. */
  function LastIndexOf(s: string, c: char): (r: Option<nat>)
    ensures r.Some? ==> r.value < |s| && s[r.value] == c && forall i :: r.value < i < |s| ==> s[i] != c
    ensures r.None? <==> c !in s
  {
    if s == [] then None
    else if s[|s| - 1] == c then Some(|s| - 1)
    else
      assert s == s[..|s| - 1] + [s[|s| - 1]];
      LastIndexOf(s[..|s| - 1], c)
  }

  predicate AllLocalChars(t: string)
  {
    forall i :: 0 <= i < |t| ==> IsLocalChar(t[i])
  }

  predicate AllDomainChars(t: string)
  {
    forall i :: 0 <= i < |t| ==> IsDomainChar(t[i])
  }

  predicate AllLetters(t: string)
  {
    forall i :: 0 <= i < |t| ==> IsLetter(t[i])
  }

  /** The part after the `@`: domain characters only, and a last dot with
      something before it and at least two letters after it. */
  function DomainAccepted(domain: string): (ok: bool)
  {
    && AllDomainChars(domain)
    && match LastIndexOf(domain, '.')
       case None => false
       case Some(d) => d > 0 && |domain| - d - 1 >= 2 && AllLetters(domain[d + 1..])
  }

  /** The pattern decided by splitting: since neither character class after the
      `@` contains `@`, the address has a single `@`; since the final run is
      letters only, the dot before it is the last dot of the address. The split
      accepts exactly the addresses the pattern matches. */
  function EmailAccepted(s: string): (ok: bool)
    ensures ok <==> MatchesEmailPattern(s)
  {
    match IndexOf(s, '@')
    case None =>
      false
    case Some(at) =>
      var ok := at > 0 && AllLocalChars(s[..at]) && DomainAccepted(s[at + 1..]);
      assert ok ==> MatchesEmailPattern(s) by {
        if ok {
          SplitFromParts(s, at, LastIndexOf(s[at + 1..], '.').value);
        }
      }
      assert MatchesEmailPattern(s) ==> ok by {
        if MatchesEmailPattern(s) {
          var at', d :| EmailSplitAt(s, at', d);
          MatchSplits(s, at', d);
        }
      }
      ok
  }

  /** The pieces the split checks, put back together as the pattern. */
  lemma SplitFromParts(s: string, at: int, d: int)
    requires 0 < at < |s| && s[at] == '@' && AllLocalChars(s[..at])
    requires var domain := s[at + 1..];
             && AllDomainChars(domain) && 0 < d < |domain| && domain[d] == '.'
             && |domain| - d - 1 >= 2 && AllLetters(domain[d + 1..])
    ensures EmailSplitAt(s, at, at + 1 + d)
  {
    var domain := s[at + 1..];
    var dd := at + 1 + d;
    assert s[dd] == domain[d];
    forall i | 0 <= i < at ensures IsLocalChar(s[i]) {
      assert s[i] == s[..at][i];
    }
    forall i | at < i < dd ensures IsDomainChar(s[i]) {
      assert s[i] == domain[i - at - 1];
    }
    forall i | dd < i < |s| ensures IsLetter(s[i]) {
      assert s[i] == domain[d + 1..][i - dd - 1];
    }
  }

  /** A match splits at the first `@`, with the parts the split checks. */
  lemma MatchSplits(s: string, at: int, dd: int)
    requires EmailSplitAt(s, at, dd)
    ensures IndexOf(s, '@') == Some(at) && AllLocalChars(s[..at]) && DomainAccepted(s[at + 1..])
  {
    assert IndexOf(s, '@') == Some(at) by {
      assert forall i :: 0 <= i < at ==> s[i] != '@';
    }
    assert AllLocalChars(s[..at]);
    DomainFromSplit(s, at, dd);
  }

  /** After the `@` of a matching address, the last dot is the one before the
      final run of letters. */
  lemma DomainFromSplit(s: string, at: int, dd: int)
    requires EmailSplitAt(s, at, dd)
    ensures DomainAccepted(s[at + 1..])
  {
    var domain := s[at + 1..];
    var d := dd - at - 1;
    assert domain[d] == '.';
    assert AllDomainChars(domain) by {
      forall i | 0 <= i < |domain| ensures IsDomainChar(domain[i]) {
        assert domain[i] == s[at + 1 + i];
      }
    }
    assert forall i :: d < i < |domain| ==> domain[i] != '.' && IsLetter(domain[i]) by {
      forall i | d < i < |domain| ensures domain[i] != '.' && IsLetter(domain[i]) {
        assert domain[i] == s[at + 1 + i];
      }
    }
    assert LastIndexOf(domain, '.') == Some(d);
    assert AllLetters(domain[d + 1..]);
  }

  // ---------------------------------------------------------------------
  // The browser's own check of the e-mail input
  // ---------------------------------------------------------------------

  /** A character HTML allows before the `@` of a valid e-mail address. */
  predicate IsHtmlLocalChar(c: char)
  {
    IsLetter(c) || IsDigit(c) || c in ".!#$%&'*+/=?^_`{|}~-"
  }

  predicate IsLabelChar(c: char)
  {
    IsLetter(c) || IsDigit(c) || c == '-'
  }

  /** One label of the domain: 1 to 63 letters, digits and hyphens, with no
      hyphen first or last. */
  predicate ValidLabel(l: string)
  {
    && 1 <= |l| <= 63
    && (forall i :: 0 <= i < |l| ==> IsLabelChar(l[i]))
    && l[0] != '-' && l[|l| - 1] != '-'
  }

  /** Labels separated by single dots. */
  predicate ValidDomain(d: string)
    decreases |d|
  {
    match IndexOf(d, '.')
    case None => ValidLabel(d)
    case Some(i) => ValidLabel(d[..i]) && ValidDomain(d[i + 1..])
  }

  /** HTML's "valid e-mail address", which an input of type `email` demands of
      a non-empty value: allowed characters, one `@`, and a dotted domain. */
  predicate HtmlEmailValid(s: string)
  {
    match IndexOf(s, '@')
    case None => false
    case Some(at) =>
      && at > 0 && (forall i :: 0 <= i < at ==> IsHtmlLocalChar(s[i]))
      && ValidDomain(s[at + 1..])
  }

  /** The form has no `noValidate`, so the browser refuses to submit it while
      the e-mail input holds a non-empty value that is not a valid address; the
      submit handler then never runs. An empty value is left to the form's own
      `required` rule. */
  predicate BrowserBlocks(email: string)
  {
    email != "" && !HtmlEmailValid(email)
  }

  /** A domain with two dots in a row has an empty label, which the browser
      refuses. */
  lemma {:induction false} DoubledDotIsInvalid(d: string, i: int)
    requires 0 <= i < |d| - 1 && d[i] == '.' && d[i + 1] == '.'
    ensures !ValidDomain(d)
    decreases |d|
  {
    match IndexOf(d, '.')
    case None =>
    case Some(k) =>
      var rest := d[k + 1..];
      if k == i {
        assert rest[0] == '.';
        assert IndexOf(rest, '.') == Some(0);
      } else {
        assert rest[i - k - 1] == d[i] && rest[i - k] == d[i + 1];
        DoubledDotIsInvalid(rest, i - k - 1);
      }
  }

  /** The pattern accepts `a@b..cd`, although its domain has an empty label. */
  lemma PatternAcceptsDoubledDot()
    ensures EmailAccepted("a@b..cd")
  {
    var s := "a@b..cd";
    assert EmailSplitAt(s, 1, 4);
  }

  /** The browser blocks `a@b..cd`, so the page never reaches the pattern for
      it. */
  lemma BrowserBlocksDoubledDot()
    ensures BrowserBlocks("a@b..cd")
  {
    var s := "a@b..cd";
    assert IndexOf(s, '@') == Some(1);
    var domain := s[2..];
    assert domain[1] == '.' && domain[2] == '.';
    DoubledDotIsInvalid(domain, 1);
  }

  /** The browser accepts `a@b`, but the pattern wants a dot and at least two
      letters at the end, so "Invalid email address" is still reachable. */
  lemma BrowserAcceptsPatternRejects()
    ensures HtmlEmailValid("a@b") && !EmailAccepted("a@b")
  {
    var s := "a@b";
    assert IndexOf(s, '@') == Some(1);
    assert s[2..] == "b";
    assert IndexOf(s[2..], '.') == None;
    assert ValidLabel(s[2..]);
    assert LastIndexOf(s[2..], '.') == None;
  }

  // ---------------------------------------------------------------------
  // Field validation
  // ---------------------------------------------------------------------

  /** The values of the form; the file input is not validated. */
  datatype FormData = FormData(
    title: string,
    category: string,
    description: string,
    location: string,
    email: string,
    phone: string,
    agreeToTerms: bool)

  datatype Field = Title | Category | Description | Location | Email | Phone | AgreeToTerms

  datatype FieldError = FieldError(field: Field, message: string)

  const MinDescriptionLength: nat := 20

  /** The rule of each field as the form states it, with the e-mail pattern
      read as written. The phone number has none. */
  ghost predicate FieldRuleHolds(d: FormData, field: Field)
  {
    match field
    case Title => d.title != ""
    case Category => d.category != ""
    case Description => |d.description| >= MinDescriptionLength
    case Location => d.location != ""
    case Email => d.email != "" && MatchesEmailPattern(d.email)
    case Phone => true
    case AgreeToTerms => d.agreeToTerms
  }

  /** The message shown under `field`: the first of its registered rules that
      fails (`required`, then `minLength` or `pattern`), or none. A required
      text field fails on the empty string only; an unchecked box fails
      `required`. A message is shown exactly when the field's rule is broken. */
  function FieldMessage(d: FormData, field: Field): (m: Option<string>)
    ensures m.None? <==> FieldRuleHolds(d, field)
  {
    match field
    case Title => if d.title == "" then Some("Title is required") else None
    case Category => if d.category == "" then Some("Category is required") else None
    case Description =>
      if d.description == "" then Some("Description is required")
      else if |d.description| < MinDescriptionLength then Some("Description should be at least 20 characters")
      else None
    case Location => if d.location == "" then Some("Location is required") else None
    case Email =>
      if d.email == "" then Some("Email is required")
      else if !EmailAccepted(d.email) then Some("Invalid email address")
      else None
    case Phone => None
    case AgreeToTerms =>
      if !d.agreeToTerms then Some("You must agree to the terms and conditions") else None
  }

  /** The error entry of one field: empty when the field passes. */
  function FieldErrors(d: FormData, field: Field): (errs: seq<FieldError>)
    ensures errs == [] <==> FieldMessage(d, field).None?
    ensures forall e :: e in errs ==> e.field == field && FieldMessage(d, field) == Some(e.message)
    ensures FieldMessage(d, field).Some? ==> errs == [FieldError(field, FieldMessage(d, field).value)]
  {
    match FieldMessage(d, field)
    case None => []
    case Some(m) => [FieldError(field, m)]
  }

  /** The errors the form reports on submission, in field order: every entry
      is the message of a field whose rule is broken, and every field whose rule
      is broken has its entry. */
  function Validate(d: FormData): (errs: seq<FieldError>)
    ensures forall e :: e in errs ==> FieldMessage(d, e.field) == Some(e.message)
    ensures forall f :: FieldMessage(d, f).Some? ==> FieldError(f, FieldMessage(d, f).value) in errs
  {
    var errs := FieldErrors(d, Title) + FieldErrors(d, Category) + FieldErrors(d, Description)
                + FieldErrors(d, Location) + FieldErrors(d, Email) + FieldErrors(d, Phone)
                + FieldErrors(d, AgreeToTerms);
    assert forall f :: FieldMessage(d, f).Some? ==> FieldError(f, FieldMessage(d, f).value) in errs by {
      forall f | FieldMessage(d, f).Some?
        ensures FieldError(f, FieldMessage(d, f).value) in errs
      {
        assert FieldError(f, FieldMessage(d, f).value) in FieldErrors(d, f);
      }
    }
    errs
  }

  /** The rules as the form states them, with the e-mail pattern read as written. */
  ghost predicate FormValid(d: FormData)
  {
    && d.title != ""
    && d.category != ""
    && |d.description| >= MinDescriptionLength
    && d.location != ""
    && d.email != "" && MatchesEmailPattern(d.email)
    && d.agreeToTerms
  }

  /** The form reports no error exactly when every rule holds. */
  lemma ValidateEmptyIff(d: FormData)
    ensures Validate(d) == [] <==> FormValid(d)
  {
    assert FieldErrors(d, Phone) == [];
  }

  // ---------------------------------------------------------------------
  // Page state
  // ---------------------------------------------------------------------

  /** A selected `File`, by the attributes the page shows. */
  datatype FileInfo = FileInfo(name: string, size: nat, mimeType: string)

  /** `removeFile`: keeps every file whose position differs from `index`,
      walking the positions in order. */
  function RemoveIndex(files: seq<FileInfo>, index: int): (r: seq<FileInfo>)
    ensures 0 <= index < |files| ==> r == files[..index] + files[index + 1..]
    ensures !(0 <= index < |files|) ==> r == files
    decreases |files|
  {
    if files == [] then []
    else
      var rest := RemoveIndex(files[1..], index - 1);
      assert files == [files[0]] + files[1..];
      if index == 0 then rest else [files[0]] + rest
  }

  /** Removing a file in range takes out exactly that file. */
  lemma RemoveIndexMultiset(files: seq<FileInfo>, index: int)
    requires 0 <= index < |files|
    ensures |RemoveIndex(files, index)| == |files| - 1
    ensures multiset(RemoveIndex(files, index)) + multiset{files[index]} == multiset(files)
  {
    SliceAroundMultiset(files, index);
  }

  lemma SliceAroundMultiset<T>(s: seq<T>, i: nat)
    requires i < |s|
    ensures multiset(s[..i] + s[i + 1..]) + multiset{s[i]} == multiset(s)
  {
    assert s == s[..i] + [s[i]] + s[i + 1..];
  }

  datatype SubmitState = SubmitState(
    isSubmitting: bool,
    isSuccess: bool,
    complaintId: Option<string>,
    selectedFiles: seq<FileInfo>,
    errors: seq<FieldError>)

  const Initial: SubmitState := SubmitState(false, false, None, [], [])

  /** `handleFileChange`: a batch, when there is one, goes after the files
      already selected, both in their order; nothing else changes. */
  function AddFiles(st: SubmitState, batch: Option<seq<FileInfo>>): (r: SubmitState)
    ensures r == st.(selectedFiles := r.selectedFiles)
    ensures batch.None? ==> r == st
    ensures batch.Some? ==>
              && |r.selectedFiles| == |st.selectedFiles| + |batch.value|
              && r.selectedFiles[..|st.selectedFiles|] == st.selectedFiles
              && r.selectedFiles[|st.selectedFiles|..] == batch.value
  {
    match batch
    case None => st
    case Some(files) => st.(selectedFiles := st.selectedFiles + files)
  }

  /** `removeFile`: an index in range takes out exactly the file there, any
      other index keeps the list; nothing else changes. */
  function RemoveFile(st: SubmitState, index: int): (r: SubmitState)
    ensures r == st.(selectedFiles := r.selectedFiles)
    ensures !(0 <= index < |st.selectedFiles|) ==> r == st
    ensures 0 <= index < |st.selectedFiles| ==>
              && |r.selectedFiles| == |st.selectedFiles| - 1
              && multiset(r.selectedFiles) + multiset{st.selectedFiles[index]} == multiset(st.selectedFiles)
  {
    if 0 <= index < |st.selectedFiles| then
      RemoveIndexMultiset(st.selectedFiles, index);
      st.(selectedFiles := RemoveIndex(st.selectedFiles, index))
    else
      st.(selectedFiles := RemoveIndex(st.selectedFiles, index))
  }

  /** `onSubmit` run to completion. `failed` stands for the awaited call
      throwing: the `catch` branch changes nothing and `finally` still clears
      the submitting flag. A successful run shows the success panel with a
      reference number of the generated shape and empties the file list; the
      errors are kept either way. */
  function Submitted(st: SubmitState, draw: int, failed: bool): (r: SubmitState)
    requires IsDraw(draw)
    ensures !r.isSubmitting && r.errors == st.errors
    ensures failed ==> r == st.(isSubmitting := false)
    ensures !failed ==> && r.isSuccess && r.complaintId == Some(GeneratedId(draw))
                        && IsComplaintId(r.complaintId.value) && r.selectedFiles == []
  {
    var busy := st.(isSubmitting := true);
    var done :=
      if failed then busy
      else busy.(complaintId := Some(GeneratedId(draw)), isSuccess := true, selectedFiles := []);
    GeneratedIdInjective(draw, draw);
    done.(isSubmitting := false)
  }

  /** Submitting the form. The browser's check of the e-mail input comes
      first: when it blocks, nothing happens at all. Otherwise the errors are
      recomputed, and `onSubmit` runs only when there are none, so a new
      reference number appears only for a form that meets every rule. */
  function HandleSubmit(st: SubmitState, data: FormData, draw: int, failed: bool): (r: SubmitState)
    requires IsDraw(draw)
    ensures BrowserBlocks(data.email) ==> r == st
    ensures !BrowserBlocks(data.email) ==> r.errors == Validate(data)
    ensures r.complaintId != st.complaintId ==>
              && !BrowserBlocks(data.email) && FormValid(data)
              && r.complaintId == Some(GeneratedId(draw))
  {
    if BrowserBlocks(data.email) then st
    else
      var checked := st.(errors := Validate(data));
      ValidateEmptyIff(data);
      if checked.errors == [] then Submitted(checked, draw, failed) else checked
  }

  /** "Submit Another Complaint" hides the panel and forgets the number; the
      files, the errors and the submitting flag are kept. */
  function SubmitAnother(st: SubmitState): (r: SubmitState)
    ensures !r.isSuccess && r.complaintId.None?
    ensures r.selectedFiles == st.selectedFiles && r.errors == st.errors
    ensures r.isSubmitting == st.isSubmitting
  {
    st.(isSuccess := false, complaintId := None)
  }

  /** Between events: nothing is being submitted, and the page shows a
      reference number exactly when it shows the success panel, and that
      number has the generated shape. */
  ghost predicate PageInvariant(st: SubmitState)
  {
    && !st.isSubmitting
    && (st.isSuccess <==> st.complaintId.Some?)
    && (st.complaintId.Some? ==> IsComplaintId(st.complaintId.value))
  }

  lemma InitialInvariant()
    ensures PageInvariant(Initial)
  {
  }

  /** A form that breaks a rule is never submitted: nothing but the errors
      changes. When the browser lets it through, the errors are non-empty;
      when the browser blocks it, not even the errors change. */
  lemma InvalidFormIsNotSubmitted(st: SubmitState, data: FormData, draw: int, failed: bool)
    requires IsDraw(draw) && !FormValid(data)
    ensures var r := HandleSubmit(st, data, draw, failed);
            && r == st.(errors := r.errors)
            && (BrowserBlocks(data.email) ==> r == st)
            && (!BrowserBlocks(data.email) ==> r.errors != [])
  {
    ValidateEmptyIff(data);
  }

  /** A valid form with no failure reaches the success panel exactly when the
      browser accepts the address; otherwise nothing happens. */
  lemma ValidFormSucceeds(st: SubmitState, data: FormData, draw: int)
    requires IsDraw(draw) && FormValid(data)
    ensures var r := HandleSubmit(st, data, draw, false);
            && (HtmlEmailValid(data.email) ==>
                  && r.isSuccess && r.complaintId == Some(GeneratedId(draw)) && r.errors == []
                  && r.selectedFiles == [] && !r.isSubmitting)
            && (!HtmlEmailValid(data.email) ==> r == st)
  {
    ValidateEmptyIff(data);
  }

  /** Every event keeps the page invariant. */
  lemma EventsKeepInvariant(st: SubmitState, batch: Option<seq<FileInfo>>, index: int,
                            data: FormData, draw: int, failed: bool)
    requires PageInvariant(st) && IsDraw(draw)
    ensures PageInvariant(AddFiles(st, batch))
    ensures PageInvariant(RemoveFile(st, index))
    ensures PageInvariant(HandleSubmit(st, data, draw, failed))
    ensures PageInvariant(SubmitAnother(st))
  {
  }

  /** The page component, with the state it keeps. */
  class SubmitComplaintPage {
    var isSubmitting: bool
    var isSuccess: bool
    var complaintId: Option<string>
    var selectedFiles: seq<FileInfo>
    var errors: seq<FieldError>

    function State(): SubmitState
      reads this
    {
      SubmitState(isSubmitting, isSuccess, complaintId, selectedFiles, errors)
    }

    ghost predicate Valid()
      reads this
    {
      PageInvariant(State())
    }

    constructor ()
      ensures Valid() && State() == Initial
    {
      isSubmitting := false;
      isSuccess := false;
      complaintId := None;
      selectedFiles := [];
      errors := [];
    }

    method HandleFileChange(batch: Option<seq<FileInfo>>)
      requires Valid()
      modifies this
      ensures Valid() && State() == AddFiles(old(State()), batch)
    {
      if batch.Some? {
        selectedFiles := selectedFiles + batch.value;
      }
    }

    method RemoveFileAt(index: int)
      requires Valid()
      modifies this
      ensures Valid() && State() == RemoveFile(old(State()), index)
    {
      selectedFiles := RemoveIndex(selectedFiles, index);
    }

    /** `onSubmit`, entered once the form has validated. */
    method OnSubmit(draw: int, failed: bool)
      requires Valid() && IsDraw(draw)
      modifies this
      ensures Valid() && State() == Submitted(old(State()), draw, failed)
    {
      isSubmitting := true;
      if !failed {
        var generatedId := GeneratedId(draw);
        complaintId := Some(generatedId);
        isSuccess := true;
        selectedFiles := [];
      }
      isSubmitting := false;
      GeneratedIdInjective(draw, draw);
    }

    method Submit(data: FormData, draw: int, failed: bool)
      requires Valid() && IsDraw(draw)
      modifies this
      ensures Valid() && State() == HandleSubmit(old(State()), data, draw, failed)
    {
      if BrowserBlocks(data.email) {
        return;
      }
      errors := Validate(data);
      if errors == [] {
        OnSubmit(draw, failed);
      }
    }

    method SubmitAnotherComplaint()
      requires Valid()
      modifies this
      ensures Valid() && State() == SubmitAnother(old(State()))
    {
      isSuccess := false;
      complaintId := None;
    }
  }
}
