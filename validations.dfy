/**
 * The contact-form schemas and their two callers.
 *
 * Each schema field is a zod string chain, modelled as the ordered list of
 * its checks and transforms: a check tests the string as it is at that point
 * of the chain and never stops the chain, a transform replaces it. So the
 * length limits see the raw string and `trim`/`toLowerCase` come after them.
 * zod's e-mail pattern is not modelled: it is the parameter `isEmail`.
 */
module Validations {
  import opened Wrappers
  import opened StringRules
  import Slug

  // Limits and messages of the contact configuration.
  const MaxNameLength := 100
  const MaxSubjectLength := 200
  const MaxMessageLength := 2000

  const NameRequired := "Le nom est requis"
  const EmailRequired := "L'email est requis"
  const EmailInvalid := "Format d'email invalide"
  const MessageRequired := "Le message est requis"
  const MessageTooLong := "Le message est trop long (max 2000 caractères)"
  const NameTooLong := "Max 100 caractères"
  const SubjectTooLong := "Max 200 caractères"
  const BotDetected := "Nice try, bot"
  const SlugInvalid := "Format de slug invalide"
  const ValidationFailed := "Validation failed"

  /**
   * One property of the parsed object: absent, a string, or another JavaScript
   * value named by zod's type name for it ("number", "null", "nan", "boolean",
   * "array", ...). The `kind` of `Other` is never "undefined" or "string",
   * which have their own constructors.
   */
  datatype Value = Undefined | Text(s: string) | Other(kind: string)

  /** The value handed to `safeParse`: an object (only the keys the schemas name matter; the others are stripped) or something else. */
  datatype Input =
    | Fields(name: Value, email: Value, subject: Value, message: Value, honeypot: Value, timestamp: Value)
    | NotAnObject(kind: string)  // zod's type name for the value, "undefined" included

  datatype Issue = Issue(path: seq<string>, message: string)

  /** One link of a zod string chain. */
  datatype Check =
    | MinLength(n: nat, message: string)
    | MaxLength(n: nat, message: string)
    | EmailFormat(message: string)
    | SlugPattern(message: string)
    | TrimSpace
    | LowerCase

  /** What a chain makes of a string: the transformed value and the messages of the checks that failed, in chain order. */
  datatype Checked = Checked(value: string, messages: seq<string>)

  function RunChecks(checks: seq<Check>, s: string, isEmail: string -> bool): (r: Checked)
    ensures |r.messages| <= |checks|
    decreases |checks|
  {
    if checks == [] then Checked(s, [])
    else
      var rest := checks[1..];
      match checks[0]
      case MinLength(n, m) => Report(|s| < n, m, RunChecks(rest, s, isEmail))
      case MaxLength(n, m) => Report(|s| > n, m, RunChecks(rest, s, isEmail))
      case EmailFormat(m) => Report(!isEmail(s), m, RunChecks(rest, s, isEmail))
      case SlugPattern(m) => Report(!Slug.MatchesSlugPattern(s), m, RunChecks(rest, s, isEmail))
      case TrimSpace => RunChecks(rest, Trim(s), isEmail)
      case LowerCase => RunChecks(rest, ToLower(s), isEmail)
  }

  /** The chain runs its first link, then the rest on the (possibly transformed) string. */
  lemma RunChecksCons(c: Check, rest: seq<Check>, s: string, isEmail: string -> bool)
    ensures RunChecks([c] + rest, s, isEmail) ==
            match c
            case MinLength(n, m) => Report(|s| < n, m, RunChecks(rest, s, isEmail))
            case MaxLength(n, m) => Report(|s| > n, m, RunChecks(rest, s, isEmail))
            case EmailFormat(m) => Report(!isEmail(s), m, RunChecks(rest, s, isEmail))
            case SlugPattern(m) => Report(!Slug.MatchesSlugPattern(s), m, RunChecks(rest, s, isEmail))
            case TrimSpace => RunChecks(rest, Trim(s), isEmail)
            case LowerCase => RunChecks(rest, ToLower(s), isEmail)
  {
    assert ([c] + rest)[1..] == rest;
  }

  function Report(failed: bool, message: string, later: Checked): (c: Checked) {
    if failed then Checked(later.value, [message] + later.messages) else later
  }

  /** What an absent property becomes: an error, an absent result, or a default that then runs through the chain. */
  datatype WhenAbsent = Required | Optional | Default(value: string)

  datatype StringSchema = StringSchema(checks: seq<Check>, absent: WhenAbsent)

  /** The parsed property (`None` when an optional one is absent) and its issues. */
  datatype FieldResult = FieldResult(value: Option<string>, issues: seq<Issue>)

  function Issues(path: seq<string>, messages: seq<string>): (r: seq<Issue>)
    ensures |r| == |messages|
    ensures forall i :: 0 <= i < |r| ==> r[i] == Issue(path, messages[i])
  {
    seq(|messages|, i requires 0 <= i < |messages| => Issue(path, messages[i]))
  }

  /** The issues of at most two messages, written out. */
  lemma IssuesOfMessages(path: seq<string>, ms: seq<string>)
    requires |ms| <= 2
    ensures Issues(path, ms) == if |ms| == 0 then []
                                else if |ms| == 1 then [Issue(path, ms[0])]
                                else [Issue(path, ms[0]), Issue(path, ms[1])]
  {
  }

  /** zod's parse of a string schema at `path`. A present result always carries the chain's value; a required property with no issue is present. */
  function ParseString(schema: StringSchema, v: Value, path: seq<string>, isEmail: string -> bool): (r: FieldResult)
    ensures r.issues == [] && schema.absent != Optional ==> r.value.Some?
    ensures forall i :: 0 <= i < |r.issues| ==> r.issues[i].path == path
  {
    match v
    case Text(s) =>
      var c := RunChecks(schema.checks, s, isEmail);
      FieldResult(Some(c.value), Issues(path, c.messages))
    case Other(kind) =>
      FieldResult(None, [Issue(path, "Expected string, received " + kind)])
    case Undefined =>
      match schema.absent
      case Required => FieldResult(None, [Issue(path, "Required")])
      case Optional => FieldResult(None, [])
      case Default(d) =>
        var c := RunChecks(schema.checks, d, isEmail);
        FieldResult(Some(c.value), Issues(path, c.messages))
  }

  /** A string value runs through the chain, whatever the schema does with an absent one. */
  lemma ParseText(schema: StringSchema, s: string, path: seq<string>, isEmail: string -> bool)
    ensures var c := RunChecks(schema.checks, s, isEmail);
            ParseString(schema, Text(s), path, isEmail) == FieldResult(Some(c.value), Issues(path, c.messages))
  {
  }

  /** zod's parse of the optional number `timestamp`: only its type is checked. */
  function ParseOptionalNumber(v: Value, path: seq<string>): (r: seq<Issue>)
    ensures r == [] <==> v.Undefined? || v == Other("number")
    ensures |r| <= 1 && forall i :: 0 <= i < |r| ==> r[i].path == path
  {
    match v
    case Undefined => []
    case Text(_) => [Issue(path, "Expected number, received string")]
    case Other(kind) => if kind == "number" then [] else [Issue(path, "Expected number, received " + kind)]
  }

  const NameSchema := StringSchema([MinLength(1, NameRequired), MaxLength(MaxNameLength, NameTooLong), TrimSpace], Required)
  const EmailSchema := StringSchema([MinLength(1, EmailRequired), EmailFormat(EmailInvalid), LowerCase, TrimSpace], Required)
  const SubjectSchema := StringSchema([MaxLength(MaxSubjectLength, SubjectTooLong)], Default(""))
  const MessageSchema := StringSchema([MinLength(1, MessageRequired), MaxLength(MaxMessageLength, MessageTooLong), TrimSpace], Required)
  const HoneypotSchema := StringSchema([MaxLength(0, BotDetected)], Optional)
  const SlugSchema := StringSchema([SlugPattern(SlugInvalid)], Required)

  /** The normalised form data. */
  datatype ContactForm = ContactForm(name: string, email: string, subject: string, message: string)

  /** The API's data: the form plus the honeypot when it was sent (the timestamp's value is not carried). */
  datatype ApiContact = ApiContact(form: ContactForm, honeypot: Option<string>)

  /** zod's `safeParse` result. */
  datatype Parsed<T> = Success(data: T) | Failure(issues: seq<Issue>)

  function FormIssues(f: Input, isEmail: string -> bool): (issues: seq<Issue>)
    requires f.Fields?
  {
    ParseString(NameSchema, f.name, ["name"], isEmail).issues
    + ParseString(EmailSchema, f.email, ["email"], isEmail).issues
    + ParseString(SubjectSchema, f.subject, ["subject"], isEmail).issues
    + ParseString(MessageSchema, f.message, ["message"], isEmail).issues
  }

  function FormData(f: Input, isEmail: string -> bool): (d: ContactForm)
    requires f.Fields? && FormIssues(f, isEmail) == []
  {
    ContactForm(ParseString(NameSchema, f.name, ["name"], isEmail).value.value,
                ParseString(EmailSchema, f.email, ["email"], isEmail).value.value,
                ParseString(SubjectSchema, f.subject, ["subject"], isEmail).value.value,
                ParseString(MessageSchema, f.message, ["message"], isEmail).value.value)
  }

  /**
   * The one issue of an input that is not an object, filed under the empty
   * path: "Required" for `undefined`, as for an absent property, and a type
   * message otherwise.
   */
  function RootIssue(kind: string): (i: Issue) {
    Issue([], if kind == "undefined" then "Required" else "Expected object, received " + kind)
  }

  /**
   * `contactFormSchema.safeParse`: every field is parsed and all issues are
   * collected, field by field. A failure always has an issue, and a non-object
   * has exactly one, filed under the key "undefined".
   */
  function ParseContactForm(input: Input, isEmail: string -> bool): (r: Parsed<ContactForm>)
    ensures r.Success? <==> input.Fields? && FormIssues(input, isEmail) == []
    ensures r.Success? ==> r.data == FormData(input, isEmail)
    ensures r.Failure? ==> r.issues != []
    ensures input.NotAnObject? ==> |r.issues| == 1 && FieldOf(r.issues[0]) == "undefined"
    ensures input.NotAnObject? ==> (r.issues[0].message == "Required" <==> input.kind == "undefined")
  {
    match input
    case NotAnObject(kind) =>
      assert ("Expected object, received " + kind)[0] == 'E';
      Failure([RootIssue(kind)])
    case Fields(_, _, _, _, _, _) =>
      if FormIssues(input, isEmail) == [] then Success(FormData(input, isEmail))
      else Failure(FormIssues(input, isEmail))
  }

  function ApiIssues(f: Input, isEmail: string -> bool): (issues: seq<Issue>)
    requires f.Fields?
  {
    FormIssues(f, isEmail)
    + ParseString(HoneypotSchema, f.honeypot, ["honeypot"], isEmail).issues
    + ParseOptionalNumber(f.timestamp, ["timestamp"])
  }

  /**
   * `apiContactSchema.safeParse`: the form's fields, then the honeypot and the
   * timestamp. A failure always has an issue; a non-object fails as it does
   * for the form schema.
   */
  function ParseApiContact(input: Input, isEmail: string -> bool): (r: Parsed<ApiContact>)
    ensures r.Success? <==> input.Fields? && ApiIssues(input, isEmail) == []
    ensures r.Success? ==> FormIssues(input, isEmail) == [] && r.data.form == FormData(input, isEmail)
    ensures r.Failure? ==> r.issues != []
    ensures input.NotAnObject? ==> r.issues == ParseContactForm(input, isEmail).issues
  {
    match input
    case NotAnObject(kind) => Failure([RootIssue(kind)])
    case Fields(_, _, _, _, _, _) =>
      if ApiIssues(input, isEmail) == [] then
        Success(ApiContact(FormData(input, isEmail), ParseString(HoneypotSchema, input.honeypot, ["honeypot"], isEmail).value))
      else Failure(ApiIssues(input, isEmail))
  }

  /** The key an issue is filed under: the first element of its path, which JavaScript spells "undefined" for an empty path. */
  function FieldOf(issue: Issue): (key: string) {
    if issue.path == [] then "undefined" else issue.path[0]
  }

  /** The dictionary the client builds from the issues, one issue after the other, each one's message overwriting its field's entry. */
  ghost function ErrorMap(issues: seq<Issue>): (errors: map<string, string>)
    decreases |issues|
  {
    if issues == [] then map[]
    else
      var last := issues[|issues| - 1];
      ErrorMap(issues[..|issues| - 1])[FieldOf(last) := last.message]
  }

  /** The dictionary has an entry for exactly the fields that have an issue. */
  lemma {:induction false} ErrorMapHasKey(issues: seq<Issue>, k: string)
    ensures k in ErrorMap(issues) <==> exists j :: 0 <= j < |issues| && FieldOf(issues[j]) == k
    decreases |issues|
  {
    if issues != [] {
      var init := issues[..|issues| - 1];
      ErrorMapHasKey(init, k);
      if exists j :: 0 <= j < |init| && FieldOf(init[j]) == k {
        var j :| 0 <= j < |init| && FieldOf(init[j]) == k;
        assert issues[j] == init[j];
      }
      if exists j :: 0 <= j < |issues| && FieldOf(issues[j]) == k {
        var j :| 0 <= j < |issues| && FieldOf(issues[j]) == k;
        if j < |init| {
          assert init[j] == issues[j];
        }
      }
    }
  }

  /** A field's entry holds the message of that field's last issue. */
  lemma {:induction false} ErrorMapLastWins(issues: seq<Issue>, j: int)
    requires 0 <= j < |issues|
    requires forall j' :: j < j' < |issues| ==> FieldOf(issues[j']) != FieldOf(issues[j])
    ensures FieldOf(issues[j]) in ErrorMap(issues)
    ensures ErrorMap(issues)[FieldOf(issues[j])] == issues[j].message
    decreases |issues|
  {
    if j < |issues| - 1 {
      var init := issues[..|issues| - 1];
      assert init[j] == issues[j];
      forall j' | j < j' < |init|
        ensures FieldOf(init[j']) != FieldOf(init[j])
      {
        assert init[j'] == issues[j'];
      }
      ErrorMapLastWins(init, j);
    }
  }

  /** Issues appended for other fields leave the entry of `k` as it was. */
  lemma {:induction false} ErrorMapIgnoresOthers(a: seq<Issue>, b: seq<Issue>, k: string)
    requires forall j :: 0 <= j < |b| ==> FieldOf(b[j]) != k
    ensures k in ErrorMap(a + b) <==> k in ErrorMap(a)
    ensures k in ErrorMap(a) ==> ErrorMap(a + b)[k] == ErrorMap(a)[k]
    decreases |b|
  {
    if b != [] {
      var init := b[..|b| - 1];
      forall j | 0 <= j < |init| ensures FieldOf(init[j]) != k {
        assert init[j] == b[j];
      }
      ErrorMapIgnoresOthers(a, init, k);
      assert (a + b)[..|a + b| - 1] == a + init;
      assert (a + b)[|a + b| - 1] == b[|b| - 1];
    } else {
      assert a + b == a;
    }
  }

  /** The entry of `k` holds the last message filed under it, when no later issue is. */
  lemma ErrorMapEntry(front: seq<Issue>, back: seq<Issue>, k: string)
    requires front != [] && FieldOf(front[|front| - 1]) == k
    requires forall j :: 0 <= j < |back| ==> FieldOf(back[j]) != k
    ensures k in ErrorMap(front + back)
    ensures ErrorMap(front + back)[k] == front[|front| - 1].message
  {
    ErrorMapLastWins(front, |front| - 1);
    ErrorMapIgnoresOthers(front, back, k);
  }

  /** The result object of `validateContactForm`; `None` stands for `null`. */
  datatype ClientResult = ClientResult(success: bool, errors: Option<map<string, string>>, data: Option<ContactForm>)

  /**
   * The `forEach` of `validateContactForm`: each issue's message is stored
   * under its field, later issues overwriting earlier ones. The result has an
   * entry for exactly the fields with an issue, holding the field's last message.
   */
  method CollectErrors(issues: seq<Issue>) returns (errors: map<string, string>)
    ensures errors == ErrorMap(issues)
    ensures forall k :: k in errors <==> exists j :: 0 <= j < |issues| && FieldOf(issues[j]) == k
    ensures forall j :: 0 <= j < |issues| && (forall j' :: j < j' < |issues| ==> FieldOf(issues[j']) != FieldOf(issues[j]))
                        ==> errors[FieldOf(issues[j])] == issues[j].message
  {
    errors := map[];
    var i := 0;
    while i < |issues|
      invariant 0 <= i <= |issues|
      invariant errors == ErrorMap(issues[..i])
    {
      assert issues[..i + 1][..i] == issues[..i];
      errors := errors[FieldOf(issues[i]) := issues[i].message];
      i := i + 1;
    }
    assert issues[..|issues|] == issues;
    forall k {
      ErrorMapHasKey(issues, k);
    }
    forall j | 0 <= j < |issues| && (forall j' :: j < j' < |issues| ==> FieldOf(issues[j']) != FieldOf(issues[j])) {
      ErrorMapLastWins(issues, j);
    }
  }

  /** `validateContactForm`: the parse result, with the issues of a failure folded into a field-to-message dictionary. */
  method ValidateContactForm(input: Input, isEmail: string -> bool) returns (r: ClientResult)
    ensures r.success <==> ParseContactForm(input, isEmail).Success?
    ensures r.success ==> r.errors == None && r.data == Some(ParseContactForm(input, isEmail).data)
    ensures !r.success ==> r.data == None && r.errors == Some(ErrorMap(ParseContactForm(input, isEmail).issues))
  {
    var result := ParseContactForm(input, isEmail);
    if result.Failure? {
      var errors := CollectErrors(result.issues);
      return ClientResult(false, Some(errors), None);
    }
    return ClientResult(true, None, Some(result.data));
  }

  /** The result object of `validateApiContact`. */
  datatype ApiResult = ApiResult(success: bool, error: Option<string>, data: Option<ApiContact>)

  /** The message reported for a failed API parse: the first issue's, or a fixed fallback when there is none or it is empty. */
  function FirstMessage(issues: seq<Issue>): (m: string)
    ensures m != ""
    ensures |issues| > 0 && issues[0].message != "" ==> m == issues[0].message
    ensures !(|issues| > 0 && issues[0].message != "") ==> m == ValidationFailed
  {
    if |issues| > 0 && issues[0].message != "" then issues[0].message else ValidationFailed
  }

  /** `validateApiContact`: success with the data, or failure with a non-empty message and no data. */
  function ValidateApiContact(input: Input, isEmail: string -> bool): (r: ApiResult)
    ensures r.success <==> ParseApiContact(input, isEmail).Success?
    ensures r.success ==> r.error == None && r.data == Some(ParseApiContact(input, isEmail).data)
    ensures !r.success ==> r.data == None && r.error.Some? && r.error.value != ""
    ensures !r.success ==> r.error == Some(FirstMessage(ParseApiContact(input, isEmail).issues))
  {
    match ParseApiContact(input, isEmail)
    case Failure(issues) => ApiResult(false, Some(FirstMessage(issues)), None)
    case Success(data) => ApiResult(true, None, Some(data))
  }

  // ---------------------------------------------------------------------------
  // The rules of each field.

  /** `name`: required, 1 to 100 characters counted before trimming; trimmed afterwards. */
  lemma NameRule(s: string, isEmail: string -> bool)
    ensures var r := ParseString(NameSchema, Text(s), ["name"], isEmail);
            && (r.issues == [] <==> 1 <= |s| <= MaxNameLength)
            && r.value == Some(Trim(s))
            && (|s| == 0 ==> r.issues == [Issue(["name"], NameRequired)])
            && (|s| > MaxNameLength ==> r.issues == [Issue(["name"], NameTooLong)])
  {
    RunChecksCons(MinLength(1, NameRequired), [MaxLength(MaxNameLength, NameTooLong), TrimSpace], s, isEmail);
    RunChecksCons(MaxLength(MaxNameLength, NameTooLong), [TrimSpace], s, isEmail);
    RunChecksCons(TrimSpace, [], s, isEmail);
  }

  /** The messages of the e-mail chain: "required", then "invalid format", each when its check fails. */
  function EmailMessages(s: string, isEmail: string -> bool): (messages: seq<string>) {
    (if |s| < 1 then [EmailRequired] else []) + (if !isEmail(s) then [EmailInvalid] else [])
  }

  /** The transforming tail of the e-mail chain: lower-case, then trim, with no message of its own. */
  lemma EmailTransforms(s: string, isEmail: string -> bool)
    ensures RunChecks([LowerCase, TrimSpace], s, isEmail) == Checked(Trim(ToLower(s)), [])
  {
    RunChecksCons(TrimSpace, [], ToLower(s), isEmail);
    RunChecksCons(LowerCase, [TrimSpace], s, isEmail);
  }

  lemma EmailChain(s: string, isEmail: string -> bool)
    ensures RunChecks(EmailSchema.checks, s, isEmail) == Checked(Trim(ToLower(s)), EmailMessages(s, isEmail))
  {
    var lowered := RunChecks([LowerCase, TrimSpace], s, isEmail);
    EmailTransforms(s, isEmail);
    RunChecksCons(EmailFormat(EmailInvalid), [LowerCase, TrimSpace], s, isEmail);
    var formatted := RunChecks([EmailFormat(EmailInvalid), LowerCase, TrimSpace], s, isEmail);
    assert formatted == Report(!isEmail(s), EmailInvalid, lowered);
    RunChecksCons(MinLength(1, EmailRequired), [EmailFormat(EmailInvalid), LowerCase, TrimSpace], s, isEmail);
    assert RunChecks(EmailSchema.checks, s, isEmail) == Report(|s| < 1, EmailRequired, formatted);
  }

  /** The issues of the e-mail chain's messages, one per failed check. */
  lemma EmailIssues(s: string, isEmail: string -> bool)
    ensures Issues(["email"], EmailMessages(s, isEmail))
            == (if |s| < 1 then [Issue(["email"], EmailRequired)] else [])
               + (if !isEmail(s) then [Issue(["email"], EmailInvalid)] else [])
  {
    var ms := EmailMessages(s, isEmail);
    IssuesOfMessages(["email"], ms);
    var required, invalid := Issue(["email"], EmailRequired), Issue(["email"], EmailInvalid);
    if |s| < 1 && !isEmail(s) {
      assert ms == [EmailRequired, EmailInvalid];
      assert [required] + [invalid] == [required, invalid];
    } else if |s| < 1 {
      assert ms == [EmailRequired];
      assert [required] + [] == [required];
    } else if !isEmail(s) {
      assert ms == [EmailInvalid];
      assert [] + [invalid] == [invalid];
    } else {
      assert ms == [];
    }
  }

  /** `email`: required and e-mail shaped, both tested on the raw string; an empty one fails both checks, in that order. Lower-cased, then trimmed. */
  lemma EmailRule(s: string, isEmail: string -> bool)
    ensures var r := ParseString(EmailSchema, Text(s), ["email"], isEmail);
            && (r.issues == [] <==> |s| >= 1 && isEmail(s))
            && r.value == Some(Trim(ToLower(s)))
            && r.issues == (if |s| < 1 then [Issue(["email"], EmailRequired)] else [])
                           + (if !isEmail(s) then [Issue(["email"], EmailInvalid)] else [])
  {
    EmailChain(s, isEmail);
    ParseText(EmailSchema, s, ["email"], isEmail);
    EmailIssues(s, isEmail);
  }


  /** `subject`: optional, "" when absent, at most 200 characters, and not trimmed. */
  lemma SubjectRule(s: string, isEmail: string -> bool)
    ensures ParseString(SubjectSchema, Undefined, ["subject"], isEmail) == FieldResult(Some(""), [])
    ensures var r := ParseString(SubjectSchema, Text(s), ["subject"], isEmail);
            && r.value == Some(s)
            && r.issues == (if |s| > MaxSubjectLength then [Issue(["subject"], SubjectTooLong)] else [])
  {
    RunChecksCons(MaxLength(MaxSubjectLength, SubjectTooLong), [], s, isEmail);
    RunChecksCons(MaxLength(MaxSubjectLength, SubjectTooLong), [], "", isEmail);
  }

  /** `message`: required, 1 to 2000 characters counted before trimming; trimmed afterwards. */
  lemma MessageRule(s: string, isEmail: string -> bool)
    ensures var r := ParseString(MessageSchema, Text(s), ["message"], isEmail);
            && (r.issues == [] <==> 1 <= |s| <= MaxMessageLength)
            && r.value == Some(Trim(s))
            && (|s| == 0 ==> r.issues == [Issue(["message"], MessageRequired)])
            && (|s| > MaxMessageLength ==> r.issues == [Issue(["message"], MessageTooLong)])
  {
    RunChecksCons(MinLength(1, MessageRequired), [MaxLength(MaxMessageLength, MessageTooLong), TrimSpace], s, isEmail);
    RunChecksCons(MaxLength(MaxMessageLength, MessageTooLong), [TrimSpace], s, isEmail);
    RunChecksCons(TrimSpace, [], s, isEmail);
  }

  /** A required field that is absent or not a string has exactly one issue. */
  lemma RequiredFieldType(schema: StringSchema, kind: string, path: seq<string>, isEmail: string -> bool)
    requires schema.absent == Required
    ensures ParseString(schema, Undefined, path, isEmail).issues == [Issue(path, "Required")]
    ensures ParseString(schema, Other(kind), path, isEmail).issues == [Issue(path, "Expected string, received " + kind)]
  {
  }

  /** The honeypot passes when absent or empty and fails with the bot message otherwise. */
  lemma HoneypotRule(s: string, isEmail: string -> bool)
    ensures ParseString(HoneypotSchema, Undefined, ["honeypot"], isEmail) == FieldResult(None, [])
    ensures var r := ParseString(HoneypotSchema, Text(s), ["honeypot"], isEmail);
            r.issues == (if s != "" then [Issue(["honeypot"], BotDetected)] else [])
  {
    RunChecksCons(MaxLength(0, BotDetected), [], s, isEmail);
  }

  /** The slug schema accepts exactly the slugs, and reports its one message otherwise. */
  lemma SlugRule(s: string, isEmail: string -> bool)
    ensures var r := ParseString(SlugSchema, Text(s), [], isEmail);
            && (r.issues == [] <==> Slug.IsSlug(s))
            && (r.issues != [] ==> r.issues == [Issue([], SlugInvalid)])
            && r.value == Some(s)
  {
    RunChecksCons(SlugPattern(SlugInvalid), [], s, isEmail);
    Slug.SlugPatternCorrect(s);
  }

  // ---------------------------------------------------------------------------
  // The two validators.

  function NameResult(f: Input, isEmail: string -> bool): (r: FieldResult) requires f.Fields? { ParseString(NameSchema, f.name, ["name"], isEmail) }
  function EmailResult(f: Input, isEmail: string -> bool): (r: FieldResult) requires f.Fields? { ParseString(EmailSchema, f.email, ["email"], isEmail) }
  function SubjectResult(f: Input, isEmail: string -> bool): (r: FieldResult) requires f.Fields? { ParseString(SubjectSchema, f.subject, ["subject"], isEmail) }
  function MessageResult(f: Input, isEmail: string -> bool): (r: FieldResult) requires f.Fields? { ParseString(MessageSchema, f.message, ["message"], isEmail) }

  /** Whether the form field `k` of an object has an issue. */
  predicate FieldFails(f: Input, k: string, isEmail: string -> bool)
    requires f.Fields?
  {
    || (k == "name" && NameResult(f, isEmail).issues != [])
    || (k == "email" && EmailResult(f, isEmail).issues != [])
    || (k == "subject" && SubjectResult(f, isEmail).issues != [])
    || (k == "message" && MessageResult(f, isEmail).issues != [])
  }

  lemma IssueAtPath(issues: seq<Issue>, field: string, j: int)
    requires forall i :: 0 <= i < |issues| ==> issues[i].path == [field]
    requires 0 <= j < |issues|
    ensures FieldOf(issues[j]) == field
  {
  }

  /** Some issue of `issues` is filed under `k`. */
  predicate Mentions(issues: seq<Issue>, k: string) {
    exists j :: 0 <= j < |issues| && FieldOf(issues[j]) == k
  }

  lemma MentionsAppend(a: seq<Issue>, b: seq<Issue>, k: string)
    ensures Mentions(a + b, k) <==> Mentions(a, k) || Mentions(b, k)
  {
    var ab := a + b;
    if Mentions(ab, k) {
      var j :| 0 <= j < |ab| && FieldOf(ab[j]) == k;
      if j < |a| {
        assert ab[j] == a[j];
      } else {
        assert ab[j] == b[j - |a|];
      }
    }
    if Mentions(a, k) {
      var j :| 0 <= j < |a| && FieldOf(a[j]) == k;
      assert ab[j] == a[j];
    }
    if Mentions(b, k) {
      var j :| 0 <= j < |b| && FieldOf(b[j]) == k;
      assert ab[|a| + j] == b[j];
    }
  }

  lemma MentionsOneField(issues: seq<Issue>, field: string, k: string)
    requires forall i :: 0 <= i < |issues| ==> issues[i].path == [field]
    ensures Mentions(issues, k) <==> k == field && issues != []
  {
    if issues != [] {
      IssueAtPath(issues, field, 0);
    }
    if Mentions(issues, k) {
      var j :| 0 <= j < |issues| && FieldOf(issues[j]) == k;
      IssueAtPath(issues, field, j);
    }
  }

  /** Issues filed under four fields, in that order: an entry exists for exactly the fields with an issue. */
  lemma KeysOfFourFields(n: seq<Issue>, e: seq<Issue>, sb: seq<Issue>, m: seq<Issue>, k: string)
    requires forall i :: 0 <= i < |n| ==> n[i].path == ["name"]
    requires forall i :: 0 <= i < |e| ==> e[i].path == ["email"]
    requires forall i :: 0 <= i < |sb| ==> sb[i].path == ["subject"]
    requires forall i :: 0 <= i < |m| ==> m[i].path == ["message"]
    ensures k in ErrorMap(n + e + sb + m) <==>
              || (k == "name" && n != []) || (k == "email" && e != [])
              || (k == "subject" && sb != []) || (k == "message" && m != [])
  {
    ErrorMapHasKey(n + e + sb + m, k);
    MentionsAppend(n + e + sb, m, k);
    MentionsAppend(n + e, sb, k);
    MentionsAppend(n, e, k);
    MentionsOneField(n, "name", k);
    MentionsOneField(e, "email", k);
    MentionsOneField(sb, "subject", k);
    MentionsOneField(m, "message", k);
  }

  /**
   * For an object, the client's dictionary has an entry for exactly the form
   * fields that have an issue, and no other entry.
   */
  lemma ErrorsNameFailingFields(f: Input, isEmail: string -> bool, k: string)
    requires f.Fields?
    ensures k in ErrorMap(FormIssues(f, isEmail)) <==> FieldFails(f, k, isEmail)
  {
    KeysOfFourFields(NameResult(f, isEmail).issues, EmailResult(f, isEmail).issues,
                     SubjectResult(f, isEmail).issues, MessageResult(f, isEmail).issues, k);
  }

  /**
   * The API schema extends the form schema: the API accepts exactly the
   * inputs the form schema accepts whose honeypot passes and whose timestamp,
   * if any, is a number, and it then carries the same form data.
   */
  lemma ApiExtendsForm(input: Input, isEmail: string -> bool)
    ensures ParseApiContact(input, isEmail).Success? <==>
              && ParseContactForm(input, isEmail).Success?
              && ParseString(HoneypotSchema, input.honeypot, ["honeypot"], isEmail).issues == []
              && ParseOptionalNumber(input.timestamp, ["timestamp"]) == []
    ensures ParseApiContact(input, isEmail).Success? ==>
              ParseApiContact(input, isEmail).data.form == ParseContactForm(input, isEmail).data
  {
  }

  /** A non-empty honeypot always fails the API validation; when the form fields are fine it is the reported reason. */
  lemma HoneypotRejects(input: Input, s: string, isEmail: string -> bool)
    requires input.Fields? && input.honeypot == Text(s) && s != ""
    ensures !ValidateApiContact(input, isEmail).success
    ensures ValidateApiContact(input, isEmail).data == None
    ensures FormIssues(input, isEmail) == [] ==> ValidateApiContact(input, isEmail).error == Some(BotDetected)
  {
    HoneypotRule(s, isEmail);
    var hp := ParseString(HoneypotSchema, input.honeypot, ["honeypot"], isEmail).issues;
    assert ApiIssues(input, isEmail) == FormIssues(input, isEmail) + hp + ParseOptionalNumber(input.timestamp, ["timestamp"]);
  }

  lemma NameDelivered(v: Value, isEmail: string -> bool)
    ensures var r := ParseString(NameSchema, v, ["name"], isEmail);
            r.issues == [] ==> v.Text? && 1 <= |v.s| <= MaxNameLength && r.value == Some(Trim(v.s)) && Trim(r.value.value) == r.value.value
  {
    if v.Text? {
      NameRule(v.s, isEmail);
      TrimIdempotent(v.s);
    }
  }

  lemma EmailDelivered(v: Value, isEmail: string -> bool)
    ensures var r := ParseString(EmailSchema, v, ["email"], isEmail);
            r.issues == [] ==>
              && v.Text? && isEmail(v.s) && r.value.Some?
              && Trim(r.value.value) == r.value.value
              && forall i :: 0 <= i < |r.value.value| ==> !IsUpper(r.value.value[i])
  {
    if v.Text? {
      var s := v.s;
      EmailRule(s, isEmail);
      TrimIdempotent(ToLower(s));
      TrimLowerCommute(s);
      ToLowerSpec(Trim(s));
    }
  }

  lemma MessageDelivered(v: Value, isEmail: string -> bool)
    ensures var r := ParseString(MessageSchema, v, ["message"], isEmail);
            r.issues == [] ==> v.Text? && 1 <= |v.s| <= MaxMessageLength && r.value == Some(Trim(v.s)) && Trim(r.value.value) == r.value.value
  {
    if v.Text? {
      MessageRule(v.s, isEmail);
      TrimIdempotent(v.s);
    }
  }

  lemma SubjectDelivered(v: Value, isEmail: string -> bool)
    ensures var r := ParseString(SubjectSchema, v, ["subject"], isEmail);
            r.issues == [] ==> r.value.Some? && |r.value.value| <= MaxSubjectLength
  {
    if v.Text? {
      SubjectRule(v.s, isEmail);
    } else if v.Undefined? {
      SubjectRule("", isEmail);
    }
  }

  /**
   * What a successful parse delivers: name, e-mail and message are trimmed,
   * the e-mail has no upper-case ASCII letter, the subject is within its
   * limit, and the name, message and e-mail were strings within their limits
   * (e-mail shaped for the e-mail) as sent.
   */
  lemma FormDataNormalised(input: Input, isEmail: string -> bool)
    requires input.Fields? && FormIssues(input, isEmail) == []
    ensures ParseContactForm(input, isEmail) == Success(FormData(input, isEmail))
    ensures var d := FormData(input, isEmail);
            Trim(d.name) == d.name && Trim(d.email) == d.email && Trim(d.message) == d.message
    ensures var d := FormData(input, isEmail);
            forall i :: 0 <= i < |d.email| ==> !IsUpper(d.email[i])
    ensures |FormData(input, isEmail).subject| <= MaxSubjectLength
    ensures input.name.Text? && 1 <= |input.name.s| <= MaxNameLength
    ensures input.message.Text? && 1 <= |input.message.s| <= MaxMessageLength
    ensures input.email.Text? && isEmail(input.email.s)
  {
    var n, e, sb, m := NameResult(input, isEmail), EmailResult(input, isEmail),
                       SubjectResult(input, isEmail), MessageResult(input, isEmail);
    assert FormIssues(input, isEmail) == n.issues + e.issues + sb.issues + m.issues;
    assert n.issues == [] && e.issues == [] && sb.issues == [] && m.issues == [];
    assert FormData(input, isEmail) == ContactForm(n.value.value, e.value.value, sb.value.value, m.value.value);
    NameDelivered(input.name, isEmail);
    EmailDelivered(input.email, isEmail);
    SubjectDelivered(input.subject, isEmail);
    MessageDelivered(input.message, isEmail);
  }

  lemma TrimBlank()
    ensures Trim(" ") == ""
  {
    var blank := " ";
    assert |blank| == 1 && blank[0] == ' ' && IsWhitespace(blank[0]);
    assert blank[1..] == [];
    assert TrimStart([]) == [] && TrimEnd([]) == [];
    assert TrimStart(blank) == TrimStart(blank[1..]);
  }

  lemma LowerTrimPlainAddress()
    ensures Trim(ToLower("a@b.com")) == "a@b.com"
  {
    ToLowerSpec("a@b.com");
    assert ToLower("a@b.com") == "a@b.com";
    TrimOfTrimmed("a@b.com");
  }

  /**
   * "Required" is tested on the raw string: a name and a message of blanks
   * pass and are delivered empty.
   */
  lemma BlankNameAndMessageAccepted(isEmail: string -> bool)
    requires isEmail("a@b.com")
    ensures ParseContactForm(Fields(Text(" "), Text("a@b.com"), Undefined, Text(" "), Undefined, Undefined), isEmail)
            == Success(ContactForm("", "a@b.com", "", ""))
  {
    var input := Fields(Text(" "), Text("a@b.com"), Undefined, Text(" "), Undefined, Undefined);
    NameRule(" ", isEmail);
    MessageRule(" ", isEmail);
    EmailRule("a@b.com", isEmail);
    SubjectRule("", isEmail);
    TrimBlank();
    LowerTrimPlainAddress();
    var n, e, sb, m := NameResult(input, isEmail), EmailResult(input, isEmail),
                       SubjectResult(input, isEmail), MessageResult(input, isEmail);
    assert n == FieldResult(Some(""), []) && m == FieldResult(Some(""), []);
    assert e == FieldResult(Some("a@b.com"), []) && sb == FieldResult(Some(""), []);
    assert FormIssues(input, isEmail) == [];
  }

  /** Issues filed under subject and message are never filed under "email". */
  lemma NotEmail(sb: seq<Issue>, m: seq<Issue>)
    requires forall i :: 0 <= i < |sb| ==> sb[i].path == ["subject"]
    requires forall i :: 0 <= i < |m| ==> m[i].path == ["message"]
    ensures forall j :: 0 <= j < |sb + m| ==> FieldOf((sb + m)[j]) != "email"
  {
    forall j | 0 <= j < |sb + m| ensures FieldOf((sb + m)[j]) != "email" {
      if j < |sb| {
        assert (sb + m)[j] == sb[j];
        IssueAtPath(sb, "subject", j);
      } else {
        assert (sb + m)[j] == m[j - |sb|];
        IssueAtPath(m, "message", j - |sb|);
      }
    }
  }

  /** An empty e-mail that is not e-mail shaped has both issues, "required" first. */
  lemma EmptyEmailIssues(s: string, isEmail: string -> bool)
    requires |s| == 0 && !isEmail(s)
    ensures ParseString(EmailSchema, Text(s), ["email"], isEmail).issues
            == [Issue(["email"], EmailRequired), Issue(["email"], EmailInvalid)]
  {
    EmailChain(s, isEmail);
    var c := RunChecks(EmailSchema.checks, s, isEmail);
    assert c.messages == [EmailRequired, EmailInvalid];
    ParseText(EmailSchema, s, ["email"], isEmail);
    assert ParseString(EmailSchema, Text(s), ["email"], isEmail).issues == Issues(["email"], [EmailRequired, EmailInvalid]);
    IssuesOfMessages(["email"], [EmailRequired, EmailInvalid]);
  }

  /**
   * An empty e-mail fails both of its checks, and the client's dictionary
   * keeps the last message, the format one.
   */
  lemma EmptyEmailMessages(input: Input, isEmail: string -> bool)
    requires input.Fields? && input.email.Text? && |input.email.s| == 0 && !isEmail(input.email.s)
    ensures "email" in ErrorMap(FormIssues(input, isEmail))
    ensures ErrorMap(FormIssues(input, isEmail))["email"] == EmailInvalid
  {
    EmptyEmailIssues(input.email.s, isEmail);
    var n, e, sb, m := NameResult(input, isEmail).issues, EmailResult(input, isEmail).issues,
                       SubjectResult(input, isEmail).issues, MessageResult(input, isEmail).issues;
    assert e == [Issue(["email"], EmailRequired), Issue(["email"], EmailInvalid)];
    var front := n + e;
    assert front[|front| - 1] == Issue(["email"], EmailInvalid);
    NotEmail(sb, m);
    assert FormIssues(input, isEmail) == front + (sb + m);
    ErrorMapEntry(front, sb + m, "email");
  }

  /** The API, which reports the first issue, gives the required message for an empty e-mail after a valid name. */
  lemma EmptyEmailFirstMessage(input: Input, isEmail: string -> bool)
    requires input.Fields? && input.email.Text? && |input.email.s| == 0 && !isEmail(input.email.s)
    requires NameResult(input, isEmail).issues == []
    ensures ValidateApiContact(input, isEmail).error == Some(EmailRequired)
  {
    EmptyEmailIssues(input.email.s, isEmail);
    ApiReportsEmailIssue(input, isEmail);
  }

  /** With a valid name, a failing e-mail's first issue is the one the API reports. */
  lemma ApiReportsEmailIssue(input: Input, isEmail: string -> bool)
    requires input.Fields? && NameResult(input, isEmail).issues == []
    requires EmailResult(input, isEmail).issues != [] && EmailResult(input, isEmail).issues[0].message != ""
    ensures ValidateApiContact(input, isEmail).error == Some(EmailResult(input, isEmail).issues[0].message)
  {
    var n, e, sb, m := NameResult(input, isEmail).issues, EmailResult(input, isEmail).issues,
                       SubjectResult(input, isEmail).issues, MessageResult(input, isEmail).issues;
    HeadAfterEmpty(n, e, sb, m);
    ApiReportsFirstIssue(input, isEmail);
  }

  lemma HeadAfterEmpty<T>(n: seq<T>, e: seq<T>, sb: seq<T>, m: seq<T>)
    requires n == [] && e != []
    ensures n + e + sb + m != [] && (n + e + sb + m)[0] == e[0]
  {
    assert n + e + sb + m == e + (sb + m);
  }

  /** A failed API parse of an object reports its first issue's message, when that one is non-empty. */
  lemma ApiReportsFirstIssue(input: Input, isEmail: string -> bool)
    requires input.Fields? && FormIssues(input, isEmail) != [] && FormIssues(input, isEmail)[0].message != ""
    ensures ValidateApiContact(input, isEmail).error == Some(FormIssues(input, isEmail)[0].message)
  {
    var api := ApiIssues(input, isEmail);
    assert api[0] == FormIssues(input, isEmail)[0];
    assert ParseApiContact(input, isEmail) == Failure(api);
  }

  // ---------------------------------------------------------------------------
  // Worked cases.

  /** An `undefined` input is "Required": the API reports it, and the client files it under "undefined". */
  lemma UndefinedInput(isEmail: string -> bool)
    ensures ValidateApiContact(NotAnObject("undefined"), isEmail).error == Some("Required")
    ensures ErrorMap(ParseContactForm(NotAnObject("undefined"), isEmail).issues) == map["undefined" := "Required"]
  {
    assert ParseContactForm(NotAnObject("undefined"), isEmail).issues == [Issue([], "Required")];
    assert [Issue([], "Required")][..0] == [];
  }

  /** A form whose one issue is `x` fails with it, and the dictionary holds just its message. */
  lemma OnlyIssue(input: Input, x: Issue, isEmail: string -> bool)
    requires input.Fields? && FormIssues(input, isEmail) == [x]
    ensures ParseContactForm(input, isEmail) == Failure([x])
    ensures ErrorMap([x]) == map[FieldOf(x) := x.message]
  {
    assert [x][..0] == [];
  }

  /** The issues of the form in `EmptyNameCase`, field by field. */
  lemma EmptyNameIssues(email: string, message: string, isEmail: string -> bool)
    requires |email| >= 1 && isEmail(email) && 1 <= |message| <= MaxMessageLength
    ensures FormIssues(Fields(Text(""), Text(email), Undefined, Text(message), Undefined, Undefined), isEmail) == [Issue(["name"], NameRequired)]
  {
    var input := Fields(Text(""), Text(email), Undefined, Text(message), Undefined, Undefined);
    NameRule("", isEmail);
    EmailRule(email, isEmail);
    SubjectRule("", isEmail);
    MessageRule(message, isEmail);
    assert NameResult(input, isEmail).issues == [Issue(["name"], NameRequired)];
    assert EmailResult(input, isEmail).issues == [];
    assert SubjectResult(input, isEmail).issues == [];
    assert MessageResult(input, isEmail).issues == [];
    assert FormIssues(input, isEmail) == [Issue(["name"], NameRequired)];
  }

  /** An empty name, with a well-formed e-mail and message, is the only issue. */
  lemma EmptyNameCase(email: string, message: string, isEmail: string -> bool)
    requires |email| >= 1 && isEmail(email) && 1 <= |message| <= MaxMessageLength
    ensures var input := Fields(Text(""), Text(email), Undefined, Text(message), Undefined, Undefined);
            && ParseContactForm(input, isEmail) == Failure([Issue(["name"], NameRequired)])
            && ErrorMap(ParseContactForm(input, isEmail).issues) == map["name" := NameRequired]
  {
    EmptyNameIssues(email, message, isEmail);
    OnlyIssue(Fields(Text(""), Text(email), Undefined, Text(message), Undefined, Undefined), Issue(["name"], NameRequired), isEmail);
  }

  /** The issues of the form in `BadEmailCase`, field by field. */
  lemma BadEmailIssues(name: string, email: string, message: string, isEmail: string -> bool)
    requires 1 <= |name| <= MaxNameLength && |email| >= 1 && !isEmail(email) && 1 <= |message| <= MaxMessageLength
    ensures FormIssues(Fields(Text(name), Text(email), Undefined, Text(message), Undefined, Undefined), isEmail) == [Issue(["email"], EmailInvalid)]
  {
    var input := Fields(Text(name), Text(email), Undefined, Text(message), Undefined, Undefined);
    NameRule(name, isEmail);
    EmailRule(email, isEmail);
    SubjectRule("", isEmail);
    MessageRule(message, isEmail);
    assert NameResult(input, isEmail).issues == [];
    assert EmailResult(input, isEmail).issues == [Issue(["email"], EmailInvalid)];
    assert SubjectResult(input, isEmail).issues == [];
    assert MessageResult(input, isEmail).issues == [];
    assert FormIssues(input, isEmail) == [Issue(["email"], EmailInvalid)];
  }

  /** A malformed e-mail, with a well-formed name and message, is the only issue. */
  lemma BadEmailCase(name: string, email: string, message: string, isEmail: string -> bool)
    requires 1 <= |name| <= MaxNameLength && |email| >= 1 && !isEmail(email) && 1 <= |message| <= MaxMessageLength
    ensures var input := Fields(Text(name), Text(email), Undefined, Text(message), Undefined, Undefined);
            && ParseContactForm(input, isEmail) == Failure([Issue(["email"], EmailInvalid)])
            && ErrorMap(ParseContactForm(input, isEmail).issues) == map["email" := EmailInvalid]
  {
    BadEmailIssues(name, email, message, isEmail);
    OnlyIssue(Fields(Text(name), Text(email), Undefined, Text(message), Undefined, Undefined), Issue(["email"], EmailInvalid), isEmail);
  }

  /** The issues of the form in `LongMessageCase`, field by field. */
  lemma LongMessageIssues(name: string, email: string, message: string, isEmail: string -> bool)
    requires 1 <= |name| <= MaxNameLength && |email| >= 1 && isEmail(email) && |message| > MaxMessageLength
    ensures FormIssues(Fields(Text(name), Text(email), Undefined, Text(message), Undefined, Undefined), isEmail) == [Issue(["message"], MessageTooLong)]
  {
    var input := Fields(Text(name), Text(email), Undefined, Text(message), Undefined, Undefined);
    NameRule(name, isEmail);
    EmailRule(email, isEmail);
    SubjectRule("", isEmail);
    MessageRule(message, isEmail);
    assert NameResult(input, isEmail).issues == [];
    assert EmailResult(input, isEmail).issues == [];
    assert SubjectResult(input, isEmail).issues == [];
    assert MessageResult(input, isEmail).issues == [Issue(["message"], MessageTooLong)];
    assert FormIssues(input, isEmail) == [Issue(["message"], MessageTooLong)];
  }

  /** A message over 2000 characters, with a well-formed name and e-mail, is the only issue. */
  lemma LongMessageCase(name: string, email: string, message: string, isEmail: string -> bool)
    requires 1 <= |name| <= MaxNameLength && |email| >= 1 && isEmail(email) && |message| > MaxMessageLength
    ensures var input := Fields(Text(name), Text(email), Undefined, Text(message), Undefined, Undefined);
            && ParseContactForm(input, isEmail) == Failure([Issue(["message"], MessageTooLong)])
            && ErrorMap(ParseContactForm(input, isEmail).issues) == map["message" := MessageTooLong]
  {
    LongMessageIssues(name, email, message, isEmail);
    OnlyIssue(Fields(Text(name), Text(email), Undefined, Text(message), Undefined, Undefined), Issue(["message"], MessageTooLong), isEmail);
  }

}
