/** The record validators of the course catalogue: CourseValidator, UnitValidator and
    QuestionValidator. Each copies the record it is given, checks the required
    fields, then runs a fixed sequence of per-field blocks over the copy; a block
    reads one field, pushes its messages onto the error list and may rewrite the
    field into its normal form. Each block is one entry of a rule table here, and
    `Run` applies the table in the order `validate` runs its blocks. */
module Validation {
  import opened Wrappers
  import opened JsText
  import opened Js

  /** A plain record, as produced by the object spread `{ ...data }`. */
  type Record = map<string, Value>

  /** `new ValidationError(message, field, value)`; `field` and `value` default to null. */
  datatype ValidationError = ValidationError(message: string, field: Option<string>, value: Value)

  /** The check one block of a validator applies to its field. */
  datatype Rule =
      /** a string whose raw length, in UTF-16 code units, lies in [min, max],
          stored trimmed when `trims` */
    | Text(min: nat, max: nat, trims: bool, typeMsg: string, lengthMsg: string)
      /** an id accepted by ObjectId.isValid, stored as an ObjectId */
    | Ref(msg: string)
      /** one of a fixed list of strings */
    | OneOf(name: string, allowed: seq<string>)
      /** a number coercion that is not NaN and not negative */
    | Price
      /** a number coercion that is an integer in [min, max] */
    | Integer(least: int, most: Option<int>, msg: string)
      /** an array, of which only the non-blank strings are kept, trimmed */
    | Tags
      /** coerced with Boolean() */
    | Flag
      /** an object whose truthy `type` is in a fixed list; `timed` adds the duration check */
    | Media(types: seq<string>, timed: bool)
      /** the type-specific question payload */
    | Payload

  datatype FieldRule = FieldRule(field: string, rule: Rule)

  datatype Kind = Course | Unit | Question

  /** What one block contributes: its messages and the field's new value. */
  datatype FieldCheck = FieldCheck(errors: seq<string>, value: Value)

  /** The errors collected so far and the sanitized copy as rewritten so far. */
  datatype State = State(errors: seq<string>, sanitized: Record)

  function EnumMessage(name: string, allowed: seq<string>): string {
    name + " must be one of: " + Join(allowed, ", ")
  }

  /** `allowed.includes(v)` for a list of strings. */
  predicate Listed(v: Value, allowed: seq<string>) {
    v.Str? && v.s in allowed
  }

  /** `new ObjectId(v)`: an ObjectId is copied as it is, anything else is wrapped. */
  function AsObjectId(v: Value): Value {
    if v.Oid? then v else Oid(v)
  }

  /** `Number.isInteger(Number(v)) && min <= n && n <= max`, as a bounded integer. */
  predicate IntegerIn(v: Value, min: int, max: Option<int>) {
    match ToNumber(v)
    case None => false
    case Some(n) => IsInteger(n) && min as real <= n && (max.Some? ==> n <= max.value as real)
  }

  /** `tags.filter(t => typeof t === "string" && t.trim().length > 0).map(t => t.trim())` */
  function CleanTags(items: seq<Value>): seq<Value> {
    if items == [] then []
    else
      var head := items[0];
      (if head.Str? && Trim(head.s) != "" then [Str(Trim(head.s))] else []) + CleanTags(items[1..])
  }

  /** The media block: its type must be listed when truthy, and for units a present
      duration must coerce to a non-negative integer, which is written back into
      the media object. */
  function CheckMedia(types: seq<string>, timed: bool, media: Value): FieldCheck {
    if !IsObject(media) then FieldCheck(["Media must be an object"], media)
    else
      var t := Prop(media, "type");
      var typeErrors := if Truthy(t) && !Listed(t, types) then [EnumMessage("Media type", types)] else [];
      var d := Prop(media, "duration");
      if !timed || d == Undefined then FieldCheck(typeErrors, media)
      else if IntegerIn(d, 0, None) then
        FieldCheck(typeErrors, Obj(media.fields["duration" := Num(ToNumber(d).value)]))
      else FieldCheck(typeErrors + ["Media duration must be a non-negative integer"], media)
  }

  /** QuestionValidator.validateQuestionData: None when the payload passes, else the
      message of the first check that throws. */
  function CheckQuestionData(questionType: Value, data: Value): Option<string> {
    if !Truthy(data) || !IsObject(data) then Some("Question data must be an object")
    else if questionType == Str("MCQ") then
      var options := Prop(data, "options");
      var answer := Prop(data, "correctAnswer");
      if !options.Arr? || |options.items| < 2 then Some("MCQ must have at least 2 options")
      else if !answer.Num? || answer.n < 0.0 || answer.n >= |options.items| as real then
        Some("MCQ must have a valid correct answer index")
      else None
    else if questionType == Str("FILL_BLANK") then
      var answers := Prop(data, "correctAnswers");
      if !answers.Arr? || |answers.items| == 0 then Some("Fill-in-blank must have at least one correct answer")
      else None
    else if questionType == Str("TEXT") then
      var maxLength := Prop(data, "maxLength");
      if maxLength != Undefined && !IntegerIn(maxLength, 1, None) then
        Some("Text question max length must be a positive integer")
      else None
    else if questionType == Str("AUDIO") then
      var url := Prop(data, "audioUrl");
      if !Truthy(url) || !url.Str? then Some("Audio question must have a valid audio URL")
      else None
    else Some("Unknown question type: " + ToStr(questionType))
  }

  /** One block applied to a present field value `v`; `questionType` is the record's
      current `type`, which only the payload block reads. */
  function Check(rule: Rule, v: Value, questionType: Value, isValid: Value -> bool): FieldCheck {
    match rule
    case Text(min, max, trims, typeMsg, lengthMsg) =>
      if !v.Str? then FieldCheck([typeMsg], v)
      else if Utf16Length(v.s) < min || Utf16Length(v.s) > max then FieldCheck([lengthMsg], v)
      else FieldCheck([], if trims then Str(Trim(v.s)) else v)
    case Ref(msg) =>
      if !isValid(v) then FieldCheck([msg], v) else FieldCheck([], AsObjectId(v))
    case OneOf(name, allowed) =>
      FieldCheck(if Listed(v, allowed) then [] else [EnumMessage(name, allowed)], v)
    case Price =>
      var p := ToNumber(v);
      if p.None? || p.value < 0.0 then FieldCheck(["Price must be a non-negative number"], v)
      else FieldCheck([], Num(p.value))
    case Integer(min, max, msg) =>
      if IntegerIn(v, min, max) then FieldCheck([], Num(ToNumber(v).value)) else FieldCheck([msg], v)
    case Tags =>
      if v.Arr? then FieldCheck([], Arr(CleanTags(v.items))) else FieldCheck(["Tags must be an array"], v)
    case Flag =>
      FieldCheck([], Bool(Truthy(v)))
    case Media(types, timed) =>
      CheckMedia(types, timed, v)
    case Payload =>
      var thrown := CheckQuestionData(questionType, v);
      FieldCheck(if thrown.Some? then [thrown.value] else [], v)
  }

  /** How a block is checked: the rule, the field's present value and the record's
      current `type` give the block's messages and the field's new value. */
  type Checker = (Rule, Value, Value) -> FieldCheck

  /** The checker of the validators, with ObjectId.isValid supplied. */
  function Blocks(isValid: Value -> bool): Checker {
    (rule, v, questionType) => Check(rule, v, questionType, isValid)
  }

  /** One block: skipped when the field is undefined on the sanitized copy. */
  function Step(st: State, fr: FieldRule, check: Checker): State {
    var v := Get(st.sanitized, fr.field);
    if v == Undefined then st
    else
      var c := check(fr.rule, v, Get(st.sanitized, "type"));
      State(st.errors + c.errors, st.sanitized[fr.field := c.value])
  }

  /** The blocks of `rules`, in order. */
  function Run(st: State, rules: seq<FieldRule>, check: Checker): State {
    if rules == [] then st
    else Step(Run(st, rules[..|rules| - 1], check), rules[|rules| - 1], check)
  }

  /** The required-field loop: one "<field> is required" per falsy field, in order. */
  function MissingRequired(data: Record, fields: seq<string>): seq<string> {
    if fields == [] then []
    else
      var f := fields[|fields| - 1];
      MissingRequired(data, fields[..|fields| - 1]) + if Truthy(Get(data, f)) then [] else [f + " is required"]
  }

  function RequiredFields(kind: Kind): seq<string> {
    match kind
    case Course => ["title", "description", "instructor", "category", "level"]
    case Unit => ["courseId", "title", "order"]
    case Question => ["unitId", "courseId", "type", "questionText", "order"]
  }

  const CourseCategories: seq<string> := ["Technology", "Business", "Design", "Marketing", "Health", "Education", "Other"]
  const CourseLevels: seq<string> := ["Beginner", "Intermediate", "Advanced"]
  const Currencies: seq<string> := ["USD", "EUR", "GBP", "INR"]
  const QuestionTypes: seq<string> := ["MCQ", "FILL_BLANK", "TEXT", "AUDIO"]
  const Difficulties: seq<string> := ["easy", "medium", "hard"]
  const UnitMediaTypes: seq<string> := ["video", "audio", "image", "pdf"]
  const QuestionMediaTypes: seq<string> := ["image", "audio", "video"]

  /** The blocks of each validator after the required loop, in source order; the
      `forEach` over isActive/isPublished and over unitId/courseId contributes one
      entry per field. */
  function Rules(kind: Kind): seq<FieldRule> {
    match kind
    case Course => [
      FieldRule("title", Text(3, 200, true, "Title must be a string", "Title must be between 3 and 200 characters")),
      FieldRule("description", Text(10, 1000, true, "Description must be a string", "Description must be between 10 and 1000 characters")),
      FieldRule("instructor", Text(2, 100, true, "Instructor must be a string", "Instructor name must be between 2 and 100 characters")),
      FieldRule("instructorId", Ref("Invalid instructor ID format")),
      FieldRule("category", OneOf("Category", CourseCategories)),
      FieldRule("level", OneOf("Level", CourseLevels)),
      FieldRule("price", Price),
      FieldRule("currency", OneOf("Currency", Currencies)),
      FieldRule("tags", Tags),
      FieldRule("isActive", Flag),
      FieldRule("isPublished", Flag)]
    case Unit => [
      FieldRule("courseId", Ref("Invalid course ID format")),
      FieldRule("title", Text(3, 200, true, "Title must be a string", "Title must be between 3 and 200 characters")),
      FieldRule("description", Text(0, 500, true, "Description must be a string", "Description must not exceed 500 characters")),
      FieldRule("content", Text(0, 50000, false, "Content must be a string", "Content must not exceed 50,000 characters")),
      FieldRule("order", Integer(1, None, "Order must be a positive integer")),
      FieldRule("media", Media(UnitMediaTypes, true)),
      FieldRule("isActive", Flag)]
    case Question => [
      FieldRule("unitId", Ref("Invalid unitId format")),
      FieldRule("courseId", Ref("Invalid courseId format")),
      FieldRule("type", OneOf("Type", QuestionTypes)),
      FieldRule("questionText", Text(10, 1000, true, "Question text must be a string", "Question text must be between 10 and 1000 characters")),
      FieldRule("explanation", Text(0, 1000, true, "Explanation must be a string", "Explanation must not exceed 1000 characters")),
      FieldRule("points", Integer(1, Some(100), "Points must be an integer between 1 and 100")),
      FieldRule("difficulty", OneOf("Difficulty", Difficulties)),
      FieldRule("order", Integer(1, None, "Order must be a positive integer")),
      FieldRule("media", Media(QuestionMediaTypes, false)),
      FieldRule("questionData", Payload),
      FieldRule("isActive", Flag)]
  }

  function FailurePrefix(kind: Kind): string {
    match kind
    case Course => "Course validation failed: "
    case Unit => "Unit validation failed: "
    case Question => "Question validation failed: "
  }

  /** The messages of the required loop, which only runs on a full insert. */
  function RequiredErrors(kind: Kind, data: Record, isUpdate: bool): seq<string> {
    if isUpdate then [] else MissingRequired(data, RequiredFields(kind))
  }

  /** The state after every block has run. */
  function Checked(kind: Kind, data: Record, isUpdate: bool, isValid: Value -> bool): State {
    Run(State(RequiredErrors(kind, data, isUpdate), data), Rules(kind), Blocks(isValid))
  }

  /** The timestamps: `createdAt` on a full insert only, `updatedAt` always. */
  function Stamp(sanitized: Record, isUpdate: bool, now: int): Record {
    var created := if isUpdate then sanitized else sanitized["createdAt" := Date(now)];
    created["updatedAt" := Date(now)]
  }

  /** The end of `validate`: throw the joined messages behind `prefix` when there
      are any, else return the stamped copy. */
  function Outcome(prefix: string, st: State, isUpdate: bool, now: int): Result<Record, ValidationError> {
    if |st.errors| > 0 then Failure(ValidationError(prefix + Join(st.errors, ", "), None, Null))
    else Success(Stamp(st.sanitized, isUpdate, now))
  }

  /** What `validate(data, isUpdate)` returns or throws. */
  function Validated(kind: Kind, data: Record, isUpdate: bool, now: int, isValid: Value -> bool): Result<Record, ValidationError> {
    Outcome(FailurePrefix(kind), Checked(kind, data, isUpdate, isValid), isUpdate, now)
  }

  /** The required-field loop over the sanitized copy. */
  method CollectMissing(sanitized: Record, required: seq<string>) returns (errors: seq<string>)
    ensures errors == MissingRequired(sanitized, required)
  {
    errors := [];
    for k := 0 to |required|
      invariant errors == MissingRequired(sanitized, required[..k])
    {
      if !Truthy(Get(sanitized, required[k])) {
        errors := errors + [required[k] + " is required"];
      }
      assert required[..k + 1][..k] == required[..k];
    }
    assert required[..|required|] == required;
  }

  /** The field blocks, one after another, each reading and rewriting the
      sanitized copy. */
  method RunBlocks(errors0: seq<string>, data: Record, rules: seq<FieldRule>, isValid: Value -> bool)
    returns (errors: seq<string>, sanitized: Record)
    ensures State(errors, sanitized) == Run(State(errors0, data), rules, Blocks(isValid))
  {
    errors, sanitized := errors0, data;
    for k := 0 to |rules|
      invariant State(errors, sanitized) == Run(State(errors0, data), rules[..k], Blocks(isValid))
    {
      var fr := rules[k];
      var v := Get(sanitized, fr.field);
      if v != Undefined {
        var c := Check(fr.rule, v, Get(sanitized, "type"), isValid);
        errors := errors + c.errors;
        sanitized := sanitized[fr.field := c.value];
      }
      assert rules[..k + 1][..k] == rules[..k];
    }
    assert rules[..|rules|] == rules;
  }

  /** `validate(data, isUpdate)` of the validator for `kind`: the required loop, the
      blocks one after another over the sanitized copy, the timestamps, then the
      throw when any message was collected. `now` is the clock reading and
      `isValid` is ObjectId.isValid. */
  method Validate(kind: Kind, data: Record, isUpdate: bool, now: int, isValid: Value -> bool)
    returns (r: Result<Record, ValidationError>)
    ensures r == Validated(kind, data, isUpdate, now, isValid)
  {
    var errors: seq<string> := [];
    if !isUpdate {
      errors := CollectMissing(data, RequiredFields(kind));
    }
    var sanitized;
    errors, sanitized := RunBlocks(errors, data, Rules(kind), isValid);
    if !isUpdate {
      sanitized := sanitized["createdAt" := Date(now)];
    }
    sanitized := sanitized["updatedAt" := Date(now)];
    if |errors| > 0 {
      r := Failure(ValidationError(FailurePrefix(kind) + Join(errors, ", "), None, Null));
    } else {
      r := Success(sanitized);
    }
  }
}
