/**
 * The waste-image verification flow of the report page: `handleVerify`
 * (one call per attempt, each failed attempt re-invoking it with
 * `retryCount + 1`) and the `handleSubmit` gate that hands a verified
 * classification to report creation.
 *
 * The classification service, the file reader and `JSON.parse` are not
 * modelled: an attempt's outcome is an `Attempt` value, and parsing is a
 * function `parse` given by the caller.
 */
module ReportVerification {
  import opened Wrappers
  import opened JsString
  import Sequences

  /** `MAX_RETRIES`: a call with `retryCount >= MaxRetries` gives up at once. */
  const MaxRetries: nat := 3

  /** The largest accepted image, in bytes (10 MiB). */
  const MaxFileSize: nat := 10 * 1024 * 1024

  /** `verificationStatus`. */
  datatype Status = Idle | Verifying | Success | Failure

  /** `verificationResult` when not null. */
  datatype Classification = Classification(wasteType: string, quantity: string, confidence: real)

  /** `newReport`, the report form; `wasteType` is the form's `type` field. */
  datatype ReportForm = ReportForm(location: string, wasteType: string, amount: string)

  const EmptyForm := ReportForm("", "", "")

  /** The selected image; only its size in bytes matters to the flow. */
  datatype ImageFile = ImageFile(size: nat)

  /** What reading the image and calling the classification service gave one attempt. */
  datatype Attempt =
    | ReadFailed                     // the base64 read rejected or gave nothing; the error has no telling message
    | ServiceError(message: string)  // the service threw; a missing message is ""
    | Reply(text: string)            // the response text; "" is the empty reply

  /**
   * `JSON.parse(jsonString)` followed by the coercions of the sanitiser:
   * `wasteType` and `quantity` are `String(field || '')` before trimming,
   * `confidence` is `Number(field)`, with `None` for NaN. `Unparsable`
   * covers a parse that throws and a parsed value without properties
   * (`null`), on which reading a field throws.
   */
  datatype Parsed =
    | Unparsable
    | Fields(wasteType: string, quantity: string, confidence: Option<real>)

  /** The classification used when the reply cannot be made sense of. */
  const Fallback := Classification("Unknown", "1 kg", 0.5)

  // ---------------------------------------------------------------------
  // Pure helpers
  // ---------------------------------------------------------------------

  /** Some `{` in `text` has a `}` somewhere after it. */
  predicate HasBracePair(text: string)
  {
    exists i, j :: 0 <= i < j < |text| && text[i] == '{' && text[j] == '}'
  }

  /** `text[s]` is its first `{`, `text[e]` its last `}`, and the `{` comes first. */
  predicate OuterBraces(text: string, s: int, e: int)
  {
    0 <= s < e < |text| && text[s] == '{' && text[e] == '}' && '{' !in text[..s] && '}' !in text[e + 1..]
  }

  /** Index of the last `c` in `s`, or -1 when there is none. */
  function LastIndexOf(s: string, c: char): (n: int)
    ensures -1 <= n < |s|
    ensures n >= 0 ==> s[n] == c
    ensures forall k :: n < k < |s| ==> s[k] != c
  {
    if s == [] then -1
    else if s[|s| - 1] == c then |s| - 1
    else LastIndexOf(s[..|s| - 1], c)
  }

  /**
   * `text.match(/\{[\s\S]*\}/)`, or the whole text when it does not match.
   * The greedy pattern matches from the first `{` to the last `}`, provided
   * the last `}` comes after that `{`.
   */
  function ExtractJson(text: string): (r: string)
    ensures !HasBracePair(text) ==> r == text
    ensures HasBracePair(text) ==> exists s, e :: OuterBraces(text, s, e) && r == text[s..e + 1]
    ensures HasBracePair(text) ==> 2 <= |r| && r[0] == '{' && r[|r| - 1] == '}'
  {
    var i := Sequences.IndexOf(text, '{');
    var j := LastIndexOf(text, '}');
    if i < j then
      assert '{' !in text[..i];
      assert '}' !in text[j + 1..];
      assert OuterBraces(text, i, j);
      text[i..j + 1]
    else
      assert !HasBracePair(text) by {
        forall a, b | 0 <= a < b < |text| && text[a] == '{' ensures text[b] != '}' {
        }
      }
      text
  }

  /** `Number(confidence) || 0.5`: zero and NaN become 0.5, any other number is kept. */
  function Confidence(n: Option<real>): (c: real)
    ensures c != 0.0
    ensures n.None? || n == Some(0.0) ==> c == 0.5
    ensures n.Some? && n.value != 0.0 ==> c == n.value
  {
    if n.None? || n.value == 0.0 then 0.5 else n.value
  }

  /** Every character of `s` is whitespace (or `s` is empty). */
  predicate Blank(s: string)
  {
    forall k :: 0 <= k < |s| ==> IsWhitespace(s[k])
  }

  /**
   * The sanitised result, or `None` where the source falls back to defaults:
   * the parse failed, or a field is empty once trimmed ('Invalid response format').
   */
  function Sanitize(p: Parsed): (r: Option<Classification>)
    ensures r.Some? <==> p.Fields? && !Blank(p.wasteType) && !Blank(p.quantity)
    ensures r.Some? ==> r.value.wasteType == Trim(p.wasteType) && r.value.quantity == Trim(p.quantity)
    ensures r.Some? ==> r.value.confidence == Confidence(p.confidence)
    ensures r.Some? ==> r.value.wasteType != [] && !IsWhitespace(r.value.wasteType[0])
                        && !IsWhitespace(r.value.wasteType[|r.value.wasteType| - 1])
    ensures r.Some? ==> r.value.quantity != [] && !IsWhitespace(r.value.quantity[0])
                        && !IsWhitespace(r.value.quantity[|r.value.quantity| - 1])
  {
    match p
    case Unparsable => None
    case Fields(w, q, c) =>
      var wasteType, quantity := Trim(w), Trim(q);
      if wasteType == [] || quantity == [] then None
      else Some(Classification(wasteType, quantity, Confidence(c)))
  }

  /** The "no waste" denylist, applied to the lower-cased waste type. */
  predicate IsNoWaste(wasteType: string)
    // every entry has at least four letters, so a blank type is never denylisted
    ensures IsNoWaste(wasteType) ==> |wasteType| >= 4
  {
    var w := Lower(wasteType);
    Contains(w, "no waste") || w == "none" || w == "no waste detected"
  }

  /** The denylist's third entry is already covered by its first. */
  lemma {:induction false} NoWasteDetectedRedundant(wasteType: string)
    ensures IsNoWaste(wasteType) <==> Contains(Lower(wasteType), "no waste") || Lower(wasteType) == "none"
  {
    var w := Lower(wasteType);
    if w == "no waste detected" {
      assert OccursAt(w, "no waste", 0);
    }
  }

  /** The denylist ignores letter case. */
  lemma NoWasteIgnoresCase(wasteType: string)
    ensures IsNoWaste(Lower(wasteType)) == IsNoWaste(wasteType)
  {
    LowerIdempotent(wasteType);
  }

  /** What a non-empty reply amounts to. */
  datatype Verdict =
    | NoWaste                                               // the denylist matched
    | Verified(result: Classification, usedDefaults: bool)  // sanitised, or the fallback

  /** Extraction, parsing, sanitising and the denylist, for a non-empty reply. */
  function Classify(text: string, parse: string -> Parsed): (v: Verdict)
    ensures Sanitize(parse(ExtractJson(text))).None? ==> v == Verified(Fallback, true)
    ensures v.NoWaste? <==>
      exists c :: Sanitize(parse(ExtractJson(text))) == Some(c) && IsNoWaste(c.wasteType)
    ensures v.Verified? && !v.usedDefaults ==>
      Sanitize(parse(ExtractJson(text))) == Some(v.result) && !IsNoWaste(v.result.wasteType)
    ensures v.Verified? ==> v.result.wasteType != [] && v.result.quantity != [] && v.result.confidence != 0.0
    // a parsed, non-blank, non-denylisted reply gives its own sanitised classification
    ensures forall c :: Sanitize(parse(ExtractJson(text))) == Some(c) && !IsNoWaste(c.wasteType) ==>
      v == Verified(c, false)
  {
    match Sanitize(parse(ExtractJson(text)))
    case None => Verified(Fallback, true)
    case Some(c) => if IsNoWaste(c.wasteType) then NoWaste else Verified(c, false)
  }

  /** What the error handler (app/report/page.tsx:212-236) decides. */
  datatype ErrorAction =
    | Stop               // rate limit or rejected image: nothing more happens
    | RetryWith(next: nat)  // a follow-up call with this `retryCount`
    | GiveUp             // 'Failed to verify image': status becomes failure

  /** The catch block's decision for an error with `message` in the call with `retryCount`. */
  function OnError(retryCount: nat, message: string): (a: ErrorAction)
    ensures a.Stop? <==> Contains(message, "RESOURCE_EXHAUSTED") || Contains(message, "INVALID_ARGUMENT")
    ensures a.RetryWith? ==> a.next == retryCount + 1 <= MaxRetries
    ensures a.GiveUp? ==> retryCount >= MaxRetries
  {
    if Contains(message, "RESOURCE_EXHAUSTED") then Stop
    else if Contains(message, "INVALID_ARGUMENT") then Stop
    else if retryCount < MaxRetries then RetryWith(retryCount + 1)
    else GiveUp
  }

  /** The message of the error thrown for an empty reply. */
  const EmptyReplyMessage := "Empty response from AI"

  /** The error handler cannot give up: it only runs when `retryCount < MaxRetries`. */
  lemma GiveUpUnreachable(retryCount: nat, message: string)
    requires retryCount < MaxRetries
    ensures OnError(retryCount, message) != GiveUp
  {
  }

  // ---------------------------------------------------------------------
  // One call of handleVerify, and the chain of calls it starts
  // ---------------------------------------------------------------------

  /** The state `handleVerify` may change. */
  datatype Verification = Verification(status: Status, result: Option<Classification>, form: ReportForm)

  /** One call's new state, the follow-up it schedules and whether it called the service. */
  datatype Step = Step(after: Verification, retry: Option<nat>, contacted: bool)

  /** The image can be sent: present, within the size limit, with the key configured. */
  predicate Sendable(file: Option<ImageFile>, keyPresent: bool)
  {
    file.Some? && keyPresent && file.value.size <= MaxFileSize
  }

  /** An attempt that the error handler retries. */
  predicate Retryable(a: Attempt)
  {
    match a
    case ReadFailed => true
    case ServiceError(m) => !Contains(m, "RESOURCE_EXHAUSTED") && !Contains(m, "INVALID_ARGUMENT")
    case Reply(text) => text == ""
  }

  /** The error handler run on state `v` for an error with `message`. */
  function Recover(v: Verification, retryCount: nat, message: string, contacted: bool): Step
  {
    match OnError(retryCount, message)
    case Stop => Step(v, None, contacted)
    case RetryWith(n) => Step(v, Some(n), contacted)
    case GiveUp => Step(v.(status := Failure), None, contacted)
  }

  /**
   * One call `handleVerify(retryCount)` on state `v`, with the selected
   * `file`, whether the API key is configured, and what the attempt got back.
   */
  function VerifyStep(v: Verification, file: Option<ImageFile>, keyPresent: bool, retryCount: nat,
                      attempt: Attempt, parse: string -> Parsed): (s: Step)
    // no image: only an error notice
    ensures file.None? ==> s == Step(v, None, false)
    // the fourth call gives up before contacting the service
    ensures file.Some? && retryCount >= MaxRetries ==> s == Step(v.(status := Failure), None, false)
    // no key or an oversized image: status stays verifying, no retry
    ensures file.Some? && retryCount < MaxRetries && (!keyPresent || file.value.size > MaxFileSize) ==>
      s == Step(v.(status := Verifying), None, false)
    // the service is contacted exactly when the request could be sent and the image was read
    ensures s.contacted ==> retryCount < MaxRetries && !attempt.ReadFailed?
    ensures Sendable(file, keyPresent) && retryCount < MaxRetries && !attempt.ReadFailed? ==> s.contacted
    // exactly the retryable errors schedule exactly one follow-up, with retryCount + 1
    ensures s.retry.Some? <==> Sendable(file, keyPresent) && retryCount < MaxRetries && Retryable(attempt)
    ensures s.retry.Some? ==> s.retry.value == retryCount + 1 && s.after == v.(status := Verifying)
    // a rate limit or a rejected image leaves status at verifying without a retry
    ensures (Sendable(file, keyPresent) && retryCount < MaxRetries
             && attempt.ServiceError? && !Retryable(attempt)) ==> s == Step(v.(status := Verifying), None, true)
    // failure only at the retry ceiling or for a reply in the denylist
    ensures s.after.status == Failure ==>
      s.after == v
      || (file.Some? && retryCount >= MaxRetries)
      || (attempt.Reply? && attempt.text != "" && Classify(attempt.text, parse).NoWaste?)
    // success stores the classification and copies it into the form
    ensures s.after.status == Success ==>
      (s.after.result.Some?
       && s.after.form == v.form.(wasteType := s.after.result.value.wasteType, amount := s.after.result.value.quantity))
      || s.after == v
    ensures s.after.result != v.result || s.after.form != v.form ==> s.after.status == Success
    ensures (Sendable(file, keyPresent) && retryCount < MaxRetries && attempt.Reply? && attempt.text != "") ==>
      s.retry.None? && s.contacted &&
      match Classify(attempt.text, parse)
      case NoWaste => s.after == v.(status := Failure)
      case Verified(c, _) => s.after == Verification(Success, Some(c), v.form.(wasteType := c.wasteType, amount := c.quantity))
  {
    if file.None? then Step(v, None, false)
    else if retryCount >= MaxRetries then Step(v.(status := Failure), None, false)
    else
      var w := v.(status := Verifying);
      if !keyPresent || file.value.size > MaxFileSize then Step(w, None, false)
      else
        match attempt
        case ReadFailed => Recover(w, retryCount, "", false)
        case ServiceError(m) => Recover(w, retryCount, m, true)
        case Reply(text) =>
          if text == "" then
            EmptyReplyRetryable();
            Recover(w, retryCount, EmptyReplyMessage, true)
          else
            match Classify(text, parse)
            case NoWaste => Step(w.(status := Failure), None, true)
            case Verified(c, _) =>
              Step(Verification(Success, Some(c), w.form.(wasteType := c.wasteType, amount := c.quantity)), None, true)
  }

  /** A string does not include a string with a character it lacks. */
  lemma NotContainsMissingChar(s: string, sub: string, c: char)
    requires c in sub && c !in s
    ensures !Contains(s, sub)
  {
    var k :| 0 <= k < |sub| && sub[k] == c;
    forall i: nat | i <= |s|
      ensures !OccursAt(s, sub, i)
    {
      if i + |sub| <= |s| {
        assert s[i..i + |sub|][k] == s[i + k];
      }
    }
  }

  /** The error thrown for an empty reply is retried. */
  lemma EmptyReplyRetryable()
    ensures !Contains(EmptyReplyMessage, "RESOURCE_EXHAUSTED") && !Contains(EmptyReplyMessage, "INVALID_ARGUMENT")
  {
    assert "RESOURCE_EXHAUSTED"[8] == '_';
    assert "INVALID_ARGUMENT"[7] == '_';
    NotContainsMissingChar(EmptyReplyMessage, "RESOURCE_EXHAUSTED", '_');
    NotContainsMissingChar(EmptyReplyMessage, "INVALID_ARGUMENT", '_');
  }

  /** The end of a chain of calls: the final state, service calls made and calls of `handleVerify`. */
  datatype Outcome = Outcome(after: Verification, contacts: nat, calls: nat)

  /**
   * `handleVerify(retryCount)` followed by every call it schedules;
   * `attempts(i)` is what the call with `retryCount == i` gets back.
   */
  function Chain(v: Verification, file: Option<ImageFile>, keyPresent: bool, retryCount: nat,
                 attempts: nat -> Attempt, parse: string -> Parsed): (o: Outcome)
    ensures o.calls >= 1
    ensures o.contacts <= o.calls
    decreases if retryCount <= MaxRetries then MaxRetries - retryCount + 1 else 0
  {
    var s := VerifyStep(v, file, keyPresent, retryCount, attempts(retryCount), parse);
    var here := if s.contacted then 1 else 0;
    match s.retry
    case None => Outcome(s.after, here, 1)
    case Some(n) =>
      var rest := Chain(s.after, file, keyPresent, n, attempts, parse);
      Outcome(rest.after, rest.contacts + here, rest.calls + 1)
  }

  /** A chain started at `retryCount` contacts the service at most `MaxRetries - retryCount` times. */
  lemma {:induction false} ChainContactsBounded(v: Verification, file: Option<ImageFile>, keyPresent: bool,
                                                retryCount: nat, attempts: nat -> Attempt, parse: string -> Parsed)
    requires retryCount <= MaxRetries
    ensures Chain(v, file, keyPresent, retryCount, attempts, parse).contacts <= MaxRetries - retryCount
    ensures Chain(v, file, keyPresent, retryCount, attempts, parse).calls <= MaxRetries - retryCount + 1
    decreases MaxRetries - retryCount
  {
    var s := VerifyStep(v, file, keyPresent, retryCount, attempts(retryCount), parse);
    if s.retry.Some? {
      ChainContactsBounded(s.after, file, keyPresent, s.retry.value, attempts, parse);
    }
  }

  /** From one user action the service is contacted at most three times, by at most four calls. */
  lemma AtMostThreeContacts(v: Verification, file: Option<ImageFile>, keyPresent: bool,
                            attempts: nat -> Attempt, parse: string -> Parsed)
    ensures Chain(v, file, keyPresent, 0, attempts, parse).contacts <= MaxRetries
    ensures Chain(v, file, keyPresent, 0, attempts, parse).calls <= MaxRetries + 1
  {
    ChainContactsBounded(v, file, keyPresent, 0, attempts, parse);
  }

  /**
   * When every attempt fails in a retryable way, the chain makes the calls
   * 0, 1, 2 and 3; the fourth gives up with status failure, and the result
   * and the form are left as they were.
   */
  lemma {:induction false} AllAttemptsFail(v: Verification, file: Option<ImageFile>, keyPresent: bool,
                                           retryCount: nat, attempts: nat -> Attempt, parse: string -> Parsed)
    requires Sendable(file, keyPresent) && retryCount <= MaxRetries
    requires forall i :: retryCount <= i < MaxRetries ==> Retryable(attempts(i))
    ensures Chain(v, file, keyPresent, retryCount, attempts, parse).after == v.(status := Failure)
    ensures Chain(v, file, keyPresent, retryCount, attempts, parse).calls == MaxRetries - retryCount + 1
    decreases MaxRetries - retryCount
  {
    if retryCount < MaxRetries {
      var s := VerifyStep(v, file, keyPresent, retryCount, attempts(retryCount), parse);
      assert Retryable(attempts(retryCount));
      AllAttemptsFail(s.after, file, keyPresent, retryCount + 1, attempts, parse);
    }
  }

  /** Two retryable failures and then a classifiable reply end in success with that reply's result. */
  lemma SuccessOnThirdAttempt(v: Verification, file: Option<ImageFile>, keyPresent: bool,
                              attempts: nat -> Attempt, parse: string -> Parsed, c: Classification, text: string)
    requires Sendable(file, keyPresent)
    requires Retryable(attempts(0)) && Retryable(attempts(1))
    requires attempts(2) == Reply(text) && text != ""
    requires Classify(text, parse).Verified? && Classify(text, parse).result == c
    ensures Chain(v, file, keyPresent, 0, attempts, parse).after
      == Verification(Success, Some(c), v.form.(wasteType := c.wasteType, amount := c.quantity))
    ensures Chain(v, file, keyPresent, 0, attempts, parse).calls == 3
  {
    var s0 := VerifyStep(v, file, keyPresent, 0, attempts(0), parse);
    var s1 := VerifyStep(s0.after, file, keyPresent, 1, attempts(1), parse);
    var s2 := VerifyStep(s1.after, file, keyPresent, 2, attempts(2), parse);
    assert s0.retry == Some(1) && s1.retry == Some(2) && s2.retry.None?;
    assert s1.after.form == v.form;
  }

  /** A rate limit or a rejected image on the first call ends the chain there, with status verifying. */
  lemma StopOnFirstAttempt(v: Verification, file: Option<ImageFile>, keyPresent: bool,
                           attempts: nat -> Attempt, parse: string -> Parsed)
    requires Sendable(file, keyPresent)
    requires attempts(0).ServiceError? && !Retryable(attempts(0))
    ensures Chain(v, file, keyPresent, 0, attempts, parse) == Outcome(v.(status := Verifying), 1, 1)
  {
  }

  // ---------------------------------------------------------------------
  // Report submission
  // ---------------------------------------------------------------------

  datatype User = User(id: int, email: string, name: string)

  /** A report as the database returns it; `createdAt` is its ISO timestamp. */
  datatype StoredReport = StoredReport(id: int, location: string, wasteType: string, amount: string, createdAt: string)

  /** A row of the page's `reports` list. */
  datatype ReportRow = ReportRow(id: int, location: string, wasteType: string, amount: string, createdAt: string)

  /** The arguments of `createReport`. */
  datatype CreateRequest = CreateRequest(userId: int, location: string, wasteType: string, amount: string,
                                         image: Option<string>, verification: Option<Classification>)

  /** `iso.split('T')[0]`: the date part of an ISO timestamp. */
  function DatePart(iso: string): (d: string)
    ensures 'T' !in d
    ensures d <= iso
    ensures |d| < |iso| ==> iso[|d|] == 'T'
  {
    iso[..Sequences.IndexOf(iso, 'T')]
  }

  /** `formattedReport`. */
  function Formatted(r: StoredReport): (row: ReportRow)
    // the stored fields are kept, and the timestamp is cut before its first `T`
    ensures row.id == r.id && row.location == r.location && row.wasteType == r.wasteType && row.amount == r.amount
    ensures row.createdAt <= r.createdAt && 'T' !in row.createdAt
    ensures |row.createdAt| < |r.createdAt| ==> r.createdAt[|row.createdAt|] == 'T'
  {
    ReportRow(r.id, r.location, r.wasteType, r.amount, DatePart(r.createdAt))
  }

  /** `preview || undefined`: an empty preview is not sent. */
  function SentImage(preview: Option<string>): (r: Option<string>)
    ensures r.Some? <==> preview.Some? && preview.value != ""
    ensures r.Some? ==> r == preview
  {
    if preview.Some? && preview.value != "" then preview else None
  }

  /** The report page's state. */
  class ReportPage {
    var user: Option<User>
    var reports: seq<ReportRow>
    var form: ReportForm
    var file: Option<ImageFile>
    var preview: Option<string>
    var status: Status
    var result: Option<Classification>

    /** The page once its mount effect has loaded `user` and the recent `reports`. */
    constructor (user: Option<User>, reports: seq<ReportRow>)
      ensures this.user == user && this.reports == reports
      ensures form == EmptyForm && file.None? && preview.None? && status == Idle && result.None?
    {
      this.user := user;
      this.reports := reports;
      form := EmptyForm;
      file := None;
      preview := None;
      status := Idle;
      result := None;
    }

    /** The part of the state handleVerify works on. */
    function Current(): Verification
      reads this
    {
      Verification(status, result, form)
    }

    /** `handleFileChange`: a chosen file and, once read, its data URL as preview. */
    method SelectFile(chosen: Option<ImageFile>, dataUrl: string)
      modifies this
      ensures chosen.None? ==> file == old(file) && preview == old(preview)
      ensures chosen.Some? ==> file == chosen && preview == Some(dataUrl)
      ensures user == old(user) && reports == old(reports) && Current() == old(Current())
    {
      if chosen.Some? {
        file := chosen;
        preview := Some(dataUrl);
      }
    }

    /** `handleVerify(retryCount)`: returns the follow-up call it schedules and whether it called the service. */
    method Verify(retryCount: nat, keyPresent: bool, attempt: Attempt, parse: string -> Parsed)
      returns (retry: Option<nat>, contacted: bool)
      modifies this
      ensures Step(Current(), retry, contacted)
        == VerifyStep(old(Current()), file, keyPresent, retryCount, attempt, parse)
      ensures user == old(user) && reports == old(reports) && file == old(file) && preview == old(preview)
    {
      retry, contacted := None, false;
      if file.None? {
        return;
      }
      if retryCount >= MaxRetries {
        status := Failure;
        return;
      }
      status := Verifying;
      if !keyPresent {
        return;
      }
      if file.value.size > MaxFileSize {
        return;
      }
      var message: string;
      match attempt {
        case ReadFailed =>
          message := "";
        case ServiceError(m) =>
          contacted := true;
          message := m;
        case Reply(text) =>
          contacted := true;
          if text == "" {
            message := EmptyReplyMessage;
          } else {
            match Classify(text, parse) {
              case NoWaste =>
                status := Failure;
              case Verified(c, _) =>
                result := Some(c);
                status := Success;
                form := form.(wasteType := c.wasteType, amount := c.quantity);
            }
            return;
          }
      }
      match OnError(retryCount, message) {
        case Stop =>
        case RetryWith(n) =>
          retry := Some(n);
        case GiveUp =>
          // 'Failed to verify image' (app/report/page.tsx:234-235): out of reach,
          // since retryCount < MaxRetries here
          assert false;
      }
    }

    /** One user action: `handleVerify(0)` and every follow-up call it schedules, in turn. */
    method RunVerification(keyPresent: bool, attempts: nat -> Attempt, parse: string -> Parsed)
      returns (contacts: nat, calls: nat)
      modifies this
      ensures Outcome(Current(), contacts, calls)
        == Chain(old(Current()), file, keyPresent, 0, attempts, parse)
      ensures user == old(user) && reports == old(reports) && file == old(file) && preview == old(preview)
    {
      ghost var whole := Chain(Current(), file, keyPresent, 0, attempts, parse);
      var retryCount: nat := 0;
      var pending := true;
      contacts, calls := 0, 0;
      while pending
        invariant retryCount <= MaxRetries
        invariant user == old(user) && reports == old(reports) && file == old(file) && preview == old(preview)
        invariant pending ==>
          var rest := Chain(Current(), file, keyPresent, retryCount, attempts, parse);
          whole == Outcome(rest.after, rest.contacts + contacts, rest.calls + calls)
        invariant !pending ==> whole == Outcome(Current(), contacts, calls)
        decreases MaxRetries - retryCount + (if pending then 1 else 0)
      {
        var retry, contacted := Verify(retryCount, keyPresent, attempts(retryCount), parse);
        calls := calls + 1;
        if contacted {
          contacts := contacts + 1;
        }
        match retry {
          case None =>
            pending := false;
          case Some(n) =>
            retryCount := n;
        }
      }
    }

    /**
     * `handleSubmit`: refuses unless verification succeeded and a user is
     * signed in; otherwise sends the form to report creation (`created` is
     * the stored report, or `None` when creation failed) and, on success,
     * prepends the new row and resets the form and the verification.
     */
    method Submit(created: Option<StoredReport>) returns (request: Option<CreateRequest>)
      modifies this
      ensures old(status) != Success || old(user).None? ==>
        request.None? && reports == old(reports) && form == old(form) && file == old(file)
        && preview == old(preview) && status == old(status) && result == old(result)
      ensures old(status) == Success && old(user).Some? ==>
        request == Some(CreateRequest(old(user).value.id, old(form).location, old(form).wasteType,
                                      old(form).amount, SentImage(old(preview)), old(result)))
      ensures old(status) == Success && old(user).Some? && created.None? ==>
        reports == old(reports) && form == old(form) && file == old(file)
        && preview == old(preview) && status == old(status) && result == old(result)
      ensures old(status) == Success && old(user).Some? && created.Some? ==>
        reports == [Formatted(created.value)] + old(reports)
        && form == EmptyForm && file.None? && preview.None? && status == Idle && result.None?
      ensures user == old(user)
    {
      request := None;
      if status != Success || user.None? {
        return;
      }
      request := Some(CreateRequest(user.value.id, form.location, form.wasteType, form.amount,
                                    SentImage(preview), result));
      if created.None? {
        return;
      }
      reports := [Formatted(created.value)] + reports;
      form := EmptyForm;
      file := None;
      preview := None;
      status := Idle;
      result := None;
    }
  }
}
