/** Properties of the record validators: the closed form of the block sequence,
    the required-field messages, the exhaustiveness of the thrown error, the
    behaviour of each kind of block and the quirks of the three rule tables. */
module ValidationProps {
  import opened Wrappers
  import opened JsText
  import opened Js
  import opened Validation

  /** The messages a block contributes when run on the untouched record. */
  function FieldErrors(fr: FieldRule, data: Record, check: Checker): seq<string> {
    var v := Get(data, fr.field);
    if v == Undefined then [] else check(fr.rule, v, Get(data, "type")).errors
  }

  /** The value a block leaves in its field when run on the untouched record. */
  function FieldValue(fr: FieldRule, data: Record, check: Checker): Value {
    var v := Get(data, fr.field);
    if v == Undefined then Undefined else check(fr.rule, v, Get(data, "type")).value
  }

  /** Every block's messages, each block judged on the untouched record. */
  function ErrorsOf(rules: seq<FieldRule>, data: Record, check: Checker): seq<string> {
    if rules == [] then []
    else ErrorsOf(rules[..|rules| - 1], data, check) + FieldErrors(rules[|rules| - 1], data, check)
  }

  function Fields(rules: seq<FieldRule>): set<string> {
    set i | 0 <= i < |rules| :: rules[i].field
  }

  predicate DistinctFields(rules: seq<FieldRule>) {
    forall i, j :: 0 <= i < j < |rules| ==> rules[i].field != rules[j].field
  }

  /** The block that owns `type`, if any, never rewrites it, so the payload block
      sees the record's own type. */
  ghost predicate KeepsType(rules: seq<FieldRule>, check: Checker) {
    forall i, v, t :: 0 <= i < |rules| && rules[i].field == "type" ==> check(rules[i].rule, v, t).value == v
  }

  /** Dropping the last block keeps the table well formed, and the last block's
      field is not owned by any earlier one. */
  lemma WellFormedPrefix(rules: seq<FieldRule>, check: Checker)
    requires rules != [] && DistinctFields(rules) && KeepsType(rules, check)
    ensures DistinctFields(rules[..|rules| - 1]) && KeepsType(rules[..|rules| - 1], check)
    ensures rules[|rules| - 1].field !in Fields(rules[..|rules| - 1])
  {
    var n := |rules|;
    var pre := rules[..n - 1];
    assert forall i :: 0 <= i < n - 1 ==> pre[i] == rules[i];
  }

  /** The blocks only rewrite fields that are present, so the keys stay the same. */
  lemma {:induction false} RunKeys(e0: seq<string>, rules: seq<FieldRule>, data: Record, check: Checker)
    ensures Run(State(e0, data), rules, check).sanitized.Keys == data.Keys
  {
    if rules != [] {
      RunKeys(e0, rules[..|rules| - 1], data, check);
    }
  }

  /** A field that no block owns keeps the caller's value. */
  lemma {:induction false} RunUnowned(e0: seq<string>, rules: seq<FieldRule>, data: Record, check: Checker, k: string)
    requires k !in Fields(rules)
    ensures Get(Run(State(e0, data), rules, check).sanitized, k) == Get(data, k)
  {
    if rules != [] {
      var pre := rules[..|rules| - 1];
      assert forall j :: 0 <= j < |pre| ==> pre[j] == rules[j];
      RunUnowned(e0, pre, data, check, k);
    }
  }

  /** The payload block reads the record's own type. */
  lemma {:induction false} RunType(e0: seq<string>, rules: seq<FieldRule>, data: Record, check: Checker)
    requires DistinctFields(rules) && KeepsType(rules, check)
    ensures Get(Run(State(e0, data), rules, check).sanitized, "type") == Get(data, "type")
    decreases |rules|, 1
  {
    if "type" in Fields(rules) {
      var i :| 0 <= i < |rules| && rules[i].field == "type";
      RunOwned(e0, rules, data, check, i);
    } else {
      RunUnowned(e0, rules, data, check, "type");
    }
  }

  /** Over a table whose fields are distinct, the blocks do not interfere: each
      field ends up with the value its own block gives the untouched record. */
  lemma {:induction false} RunOwned(e0: seq<string>, rules: seq<FieldRule>, data: Record, check: Checker, i: nat)
    requires DistinctFields(rules) && KeepsType(rules, check) && i < |rules|
    ensures Get(Run(State(e0, data), rules, check).sanitized, rules[i].field) == FieldValue(rules[i], data, check)
    decreases |rules|, 0
  {
    var n := |rules|;
    var pre, last := rules[..n - 1], rules[n - 1];
    WellFormedPrefix(rules, check);
    if i < n - 1 {
      assert pre[i] == rules[i];
      assert rules[i].field != last.field;
      RunOwned(e0, pre, data, check, i);
    } else {
      RunUnowned(e0, pre, data, check, last.field);
      RunType(e0, pre, data, check);
    }
  }

  /** The errors are the initial ones followed by each block's messages on the
      untouched record, in table order. */
  lemma {:induction false} RunErrors(e0: seq<string>, rules: seq<FieldRule>, data: Record, check: Checker)
    requires DistinctFields(rules) && KeepsType(rules, check)
    ensures Run(State(e0, data), rules, check).errors == e0 + ErrorsOf(rules, data, check)
  {
    if rules != [] {
      var n := |rules|;
      var pre, last := rules[..n - 1], rules[n - 1];
      WellFormedPrefix(rules, check);
      RunErrors(e0, pre, data, check);
      RunUnowned(e0, pre, data, check, last.field);
      RunType(e0, pre, data, check);
    }
  }

  function FieldNames(rules: seq<FieldRule>): (fs: seq<string>)
    ensures |fs| == |rules| && forall i :: 0 <= i < |rules| ==> fs[i] == rules[i].field
  {
    seq(|rules|, i requires 0 <= i < |rules| => rules[i].field)
  }

  /** A table whose field names are pairwise distinct owns each field once. */
  lemma DistinctNames(rules: seq<FieldRule>, names: seq<string>)
    requires FieldNames(rules) == names
    requires forall i, j :: 0 <= i < j < |names| ==> names[i] != names[j]
    ensures DistinctFields(rules)
    ensures forall k :: k in Fields(rules) <==> k in names
  {
    forall k | k in names
      ensures k in Fields(rules)
    {
      var i :| 0 <= i < |names| && names[i] == k;
      assert rules[i].field == k;
    }
  }

  /** The fields each validator's blocks own, in order. */
  function Names(kind: Kind): seq<string> {
    match kind
    case Course => ["title", "description", "instructor", "instructorId", "category", "level", "price", "currency", "tags", "isActive", "isPublished"]
    case Unit => ["courseId", "title", "description", "content", "order", "media", "isActive"]
    case Question => ["unitId", "courseId", "type", "questionText", "explanation", "points", "difficulty", "order", "media", "questionData", "isActive"]
  }

  lemma CourseNames()
    ensures FieldNames(Rules(Course)) == Names(Course)
  {
  }

  lemma UnitNames()
    ensures FieldNames(Rules(Unit)) == Names(Unit)
  {
  }

  lemma QuestionNames()
    ensures FieldNames(Rules(Question)) == Names(Question)
  {
  }

  lemma NamesDistinct(kind: Kind)
    ensures forall i, j :: 0 <= i < j < |Names(kind)| ==> Names(kind)[i] != Names(kind)[j]
  {
  }

  /** Only the question table owns `type`, in its third block. */
  lemma TypeOwnedOnce(kind: Kind)
    ensures forall i :: 0 <= i < |Names(kind)| && Names(kind)[i] == "type" ==> kind == Question && i == 2
  {
  }

  /** Each table owns the fields Names lists, in that order. */
  lemma TableNames(kind: Kind)
    ensures FieldNames(Rules(kind)) == Names(kind)
  {
    match kind
    case Course => CourseNames();
    case Unit => UnitNames();
    case Question => QuestionNames();
  }

  /** Each table owns exactly the fields Names lists, each once. */
  lemma TableFields(kind: Kind)
    ensures DistinctFields(Rules(kind))
    ensures forall k :: k in Fields(Rules(kind)) <==> k in Names(kind)
  {
    TableNames(kind);
    NamesDistinct(kind);
    DistinctNames(Rules(kind), Names(kind));
  }

  /** The block that owns `type`, in the question table, is an enum block. */
  lemma TypeRuleIsEnum(kind: Kind)
    ensures forall i :: 0 <= i < |Rules(kind)| && Rules(kind)[i].field == "type" ==> Rules(kind)[i].rule.OneOf?
  {
    TableNames(kind);
    TypeOwnedOnce(kind);
  }

  /** The three tables own each field once and never rewrite `type`. */
  lemma TablesWellFormed(kind: Kind, isValid: Value -> bool)
    ensures DistinctFields(Rules(kind)) && KeepsType(Rules(kind), Blocks(isValid))
  {
    var rules := Rules(kind);
    TableFields(kind);
    TypeRuleIsEnum(kind);
    forall i, v, t | 0 <= i < |rules| && rules[i].field == "type"
      ensures Blocks(isValid)(rules[i].rule, v, t).value == v
    {
      assert rules[i].rule.OneOf?;
    }
  }

  /** A block's messages all appear among the messages of the whole table. */
  lemma {:induction false} ErrorsOfContains(rules: seq<FieldRule>, data: Record, check: Checker, i: nat, e: string)
    requires i < |rules| && e in FieldErrors(rules[i], data, check)
    ensures e in ErrorsOf(rules, data, check)
  {
    var n := |rules|;
    if i < n - 1 {
      assert rules[..n - 1][i] == rules[i];
      ErrorsOfContains(rules[..n - 1], data, check, i, e);
    }
  }

  /** The messages of a validator: the required loop's, then each block's on the
      record as given, in table order. */
  lemma CheckedErrors(kind: Kind, data: Record, isUpdate: bool, isValid: Value -> bool)
    ensures Checked(kind, data, isUpdate, isValid).errors
         == RequiredErrors(kind, data, isUpdate) + ErrorsOf(Rules(kind), data, Blocks(isValid))
  {
    TablesWellFormed(kind, isValid);
    RunErrors(RequiredErrors(kind, data, isUpdate), Rules(kind), data, Blocks(isValid));
  }

  /** A field owned by a block holds that block's value on the record as given. */
  lemma CheckedOwned(kind: Kind, data: Record, isUpdate: bool, isValid: Value -> bool, i: nat)
    requires i < |Rules(kind)|
    ensures Get(Checked(kind, data, isUpdate, isValid).sanitized, Rules(kind)[i].field)
         == FieldValue(Rules(kind)[i], data, Blocks(isValid))
  {
    TablesWellFormed(kind, isValid);
    RunOwned(RequiredErrors(kind, data, isUpdate), Rules(kind), data, Blocks(isValid), i);
  }

  /** A field no block owns keeps the caller's value, and no key is added or removed. */
  lemma CheckedUnowned(kind: Kind, data: Record, isUpdate: bool, isValid: Value -> bool, k: string)
    requires k !in Names(kind)
    ensures Get(Checked(kind, data, isUpdate, isValid).sanitized, k) == Get(data, k)
    ensures Checked(kind, data, isUpdate, isValid).sanitized.Keys == data.Keys
  {
    TableNames(kind);
    RunUnowned(RequiredErrors(kind, data, isUpdate), Rules(kind), data, Blocks(isValid), k);
    RunKeys(RequiredErrors(kind, data, isUpdate), Rules(kind), data, Blocks(isValid));
  }

  /** "<f> is required" is produced by the required loop exactly for the listed
      fields that are falsy. */
  lemma {:induction false} MissingRequiredIff(data: Record, fields: seq<string>, f: string)
    ensures (f + " is required") in MissingRequired(data, fields) <==> f in fields && !Truthy(Get(data, f))
  {
    if fields != [] {
      var n := |fields|;
      var g := fields[n - 1];
      MissingRequiredIff(data, fields[..n - 1], f);
      assert fields == fields[..n - 1] + [g];
      if g + " is required" == f + " is required" {
        assert |g| == |f|;
        assert g == (g + " is required")[..|g|];
        assert f == (f + " is required")[..|f|];
      }
    }
  }

  /** On a full insert the required loop reports "<field> is required" exactly for
      the required fields that are falsy (so `order: 0` counts as missing); with
      isUpdate it reports nothing. Its messages come first in the error list. */
  lemma RequiredMessages(kind: Kind, data: Record, isUpdate: bool, isValid: Value -> bool, f: string)
    ensures (f + " is required") in RequiredErrors(kind, data, isUpdate)
        <==> !isUpdate && f in RequiredFields(kind) && !Truthy(Get(data, f))
    ensures isUpdate ==> RequiredErrors(kind, data, isUpdate) == []
    ensures RequiredErrors(kind, data, isUpdate) <= Checked(kind, data, isUpdate, isValid).errors
  {
    CheckedErrors(kind, data, isUpdate, isValid);
    MissingRequiredIff(data, RequiredFields(kind), f);
  }

  /** The validators are exhaustive: they throw iff some message was collected, the
      thrown message is the validator's prefix followed by every message joined by
      ", " (so each one can be read back from it), and otherwise they return the
      stamped sanitized copy. */
  lemma ValidatedExhaustive(kind: Kind, data: Record, isUpdate: bool, now: int, isValid: Value -> bool)
    ensures Validated(kind, data, isUpdate, now, isValid).Failure?
        <==> Checked(kind, data, isUpdate, isValid).errors != []
    ensures Validated(kind, data, isUpdate, now, isValid).Failure? ==>
      var errors := Checked(kind, data, isUpdate, isValid).errors;
      var message := Validated(kind, data, isUpdate, now, isValid).error.message;
      message == FailurePrefix(kind) + Join(errors, ", ")
      && forall i :: 0 <= i < |errors| ==> IsInfix(errors[i], message)
    ensures Validated(kind, data, isUpdate, now, isValid).Success? ==>
      Validated(kind, data, isUpdate, now, isValid).value
        == Stamp(Checked(kind, data, isUpdate, isValid).sanitized, isUpdate, now)
  {
    OutcomeExhaustive(FailurePrefix(kind), Checked(kind, data, isUpdate, isValid), isUpdate, now);
  }

  /** The end of `validate` throws iff there is a message, with every message in
      the thrown text. */
  lemma OutcomeExhaustive(prefix: string, st: State, isUpdate: bool, now: int)
    ensures Outcome(prefix, st, isUpdate, now).Failure? <==> st.errors != []
    ensures Outcome(prefix, st, isUpdate, now).Failure? ==>
      var message := Outcome(prefix, st, isUpdate, now).error.message;
      message == prefix + Join(st.errors, ", ")
      && Outcome(prefix, st, isUpdate, now).error.field == None
      && forall i :: 0 <= i < |st.errors| ==> IsInfix(st.errors[i], message)
    ensures Outcome(prefix, st, isUpdate, now).Success? ==>
      Outcome(prefix, st, isUpdate, now).value == Stamp(st.sanitized, isUpdate, now)
  {
    forall i | 0 <= i < |st.errors|
      ensures IsInfix(st.errors[i], prefix + Join(st.errors, ", "))
    {
      PrefixedJoinContainsEach(prefix, st.errors, ", ", i);
    }
  }

  /** A successful validation stamps `updatedAt`, stamps `createdAt` only on a full
      insert (an update keeps the caller's), and passes every field no block owns
      through unchanged. */
  lemma TimestampsAndPassThrough(kind: Kind, data: Record, isUpdate: bool, now: int, isValid: Value -> bool)
    requires Validated(kind, data, isUpdate, now, isValid).Success?
    ensures var out := Validated(kind, data, isUpdate, now, isValid).value;
      && Get(out, "updatedAt") == Date(now)
      && Get(out, "createdAt") == (if isUpdate then Get(data, "createdAt") else Date(now))
      && (forall k :: k !in Names(kind) && k != "createdAt" && k != "updatedAt" ==> Get(out, k) == Get(data, k))
      && out.Keys == data.Keys + {"updatedAt"} + (if isUpdate then {} else {"createdAt"})
  {
    var sanitized := Checked(kind, data, isUpdate, isValid).sanitized;
    ValidatedExhaustive(kind, data, isUpdate, now, isValid);
    StampSpec(sanitized, isUpdate, now);
    StampsUnowned(kind);
    CheckedUnowned(kind, data, isUpdate, isValid, "createdAt");
    forall k | k !in Names(kind) && k != "createdAt" && k != "updatedAt"
      ensures Get(sanitized, k) == Get(data, k)
    {
      CheckedUnowned(kind, data, isUpdate, isValid, k);
    }
  }

  /** No block owns a timestamp. */
  lemma StampsUnowned(kind: Kind)
    ensures "createdAt" !in Names(kind) && "updatedAt" !in Names(kind)
  {
  }

  /** The timestamps set `updatedAt`, set `createdAt` only on a full insert, and
      leave every other field as it was. */
  lemma StampSpec(sanitized: Record, isUpdate: bool, now: int)
    ensures var out := Stamp(sanitized, isUpdate, now);
      && Get(out, "updatedAt") == Date(now)
      && Get(out, "createdAt") == (if isUpdate then Get(sanitized, "createdAt") else Date(now))
      && (forall k :: k != "createdAt" && k != "updatedAt" ==> Get(out, k) == Get(sanitized, k))
      && out.Keys == sanitized.Keys + {"updatedAt"} + (if isUpdate then {} else {"createdAt"})
  {
  }

  // ---- Individual blocks ----

  /** A text block accepts exactly a string whose raw, untrimmed length in
      UTF-16 code units is within bounds, and stores the trimmed string when it
      trims. */
  lemma TextBlock(min: nat, max: nat, trims: bool, typeMsg: string, lengthMsg: string, v: Value, questionType: Value, isValid: Value -> bool)
    ensures var c := Check(Text(min, max, trims, typeMsg, lengthMsg), v, questionType, isValid);
      && (c.errors == [] <==> v.Str? && min <= Utf16Length(v.s) <= max)
      && (c.errors == [] ==> c.value == if trims then Str(Trim(v.s)) else v)
      && (!v.Str? ==> c.errors == [typeMsg])
      && (v.Str? && c.errors != [] ==> c.errors == [lengthMsg])
  {
  }

  /** Because the length is checked before trimming, a course title of four
      characters with two leading spaces passes the title block and is stored as a
      two-character title, below the minimum of three. */
  lemma TitleShorterThanMinimum(data: Record, isUpdate: bool, isValid: Value -> bool)
    requires Get(data, "title") == Str("  ab")
    ensures FieldErrors(Rules(Course)[0], data, Blocks(isValid)) == []
    ensures Get(Checked(Course, data, isUpdate, isValid).sanitized, "title") == Str("ab")
  {
    CourseTitleRule();
    TitleBlockTrims(data, isValid);
    CheckedOwned(Course, data, isUpdate, isValid, 0);
  }

  lemma CourseTitleRule()
    ensures Rules(Course)[0] == TitleRule
  {
  }

  const TitleRule := FieldRule("title", Text(3, 200, true, "Title must be a string", "Title must be between 3 and 200 characters"))

  lemma TitleBlockTrims(data: Record, isValid: Value -> bool)
    requires Get(data, "title") == Str("  ab")
    ensures FieldErrors(TitleRule, data, Blocks(isValid)) == []
    ensures FieldValue(TitleRule, data, Blocks(isValid)) == Str("ab")
  {
    TwoSpacesTrimmed();
    TextBlock(3, 200, true, "Title must be a string", "Title must be between 3 and 200 characters", Str("  ab"), Get(data, "type"), isValid);
  }

  lemma TwoSpacesTrimmed()
    ensures Trim("  ab") == "ab" && Utf16Length("  ab") == 4
  {
    assert TrimStart("  ab") == TrimStart(" ab") == TrimStart("ab") == "ab";
    assert TrimEnd("ab") == "ab";
  }

  /** Lengths count UTF-16 code units: a title of two emoji is four units long,
      so it passes the three-character minimum and is stored as it is. */
  lemma AstralTitleAccepted(data: Record, isValid: Value -> bool)
    requires Get(data, "title") == Str("\U{1F600}\U{1F600}")
    ensures FieldErrors(TitleRule, data, Blocks(isValid)) == []
    ensures FieldValue(TitleRule, data, Blocks(isValid)) == Str("\U{1F600}\U{1F600}")
  {
    var t := "\U{1F600}\U{1F600}";
    assert Utf16Length(t) == 4 by {
      assert IsAstral(t[0]) && t[1..] == "\U{1F600}";
      assert IsAstral(t[1..][0]) && t[1..][1..] == "";
    }
    assert Trim(t) == t by {
      assert !IsSpace(t[0]) && !IsSpace(t[|t| - 1]);
    }
    TextBlock(3, 200, true, "Title must be a string", "Title must be between 3 and 200 characters", Str(t), Get(data, "type"), isValid);
  }

  /** An enum block accepts exactly the listed strings and never rewrites. */
  lemma OneOfBlock(name: string, allowed: seq<string>, v: Value, questionType: Value, isValid: Value -> bool)
    ensures var c := Check(OneOf(name, allowed), v, questionType, isValid);
      && c.value == v
      && (c.errors == [] <==> exists i :: 0 <= i < |allowed| && v == Str(allowed[i]))
      && (c.errors != [] ==> c.errors == [name + " must be one of: " + Join(allowed, ", ")])
  {
    var c := Check(OneOf(name, allowed), v, questionType, isValid);
    if c.errors == [] {
      var i :| 0 <= i < |allowed| && allowed[i] == v.s;
      assert v == Str(allowed[i]);
    }
  }

  /** An integer block accepts exactly a value whose numeric coercion is an integer
      within bounds, and stores the coerced number. */
  lemma IntegerBlock(least: int, most: Option<int>, msg: string, v: Value, questionType: Value, isValid: Value -> bool)
    ensures var c := Check(Integer(least, most, msg), v, questionType, isValid);
      && (c.errors == [] <==>
            ToNumber(v).Some? && IsInteger(ToNumber(v).value)
            && least as real <= ToNumber(v).value && (most.Some? ==> ToNumber(v).value <= most.value as real))
      && (c.errors == [] ==> c.value == Num(ToNumber(v).value))
      && (c.errors != [] ==> c.errors == [msg] && c.value == v)
  {
  }

  /** `order: "3"` is accepted and stored as the number 3. */
  lemma OrderFromString(msg: string, questionType: Value, isValid: Value -> bool)
    ensures Check(Integer(1, None, msg), Str("3"), questionType, isValid) == FieldCheck([], Num(3.0))
  {
    ThreeReadBack();
  }

  lemma ThreeReadBack()
    ensures ToNumber(Str("3")) == Some(3.0)
  {
    IntToStringReadBack(3);
    assert IntToString(3) == "3";
    ToNumberOfString("3");
  }

  /** The price block accepts exactly a value whose numeric coercion is a
      non-negative number, and stores that number. */
  lemma PriceBlock(v: Value, questionType: Value, isValid: Value -> bool)
    ensures var c := Check(Price, v, questionType, isValid);
      && (c.errors == [] <==> exists p :: ToNumber(v) == Some(p) && p >= 0.0)
      && (c.errors == [] ==> c.value == Num(ToNumber(v).value))
      && (c.errors != [] ==> c.errors == ["Price must be a non-negative number"])
  {
  }

  /** An id block accepts what ObjectId.isValid accepts and stores an ObjectId. */
  lemma RefBlock(msg: string, v: Value, questionType: Value, isValid: Value -> bool)
    ensures var c := Check(Ref(msg), v, questionType, isValid);
      && (c.errors == [] <==> isValid(v))
      && (c.errors == [] ==> c.value.Oid?)
      && (c.errors != [] ==> c.errors == [msg])
  {
  }

  /** A flag block never fails and stores the truth value of the field. */
  lemma FlagBlock(v: Value, questionType: Value, isValid: Value -> bool)
    ensures Check(Flag, v, questionType, isValid) == FieldCheck([], Bool(Truthy(v)))
  {
  }

  // ---- Tags ----

  /** A clean tag is a non-empty string with nothing to trim. */
  predicate CleanTag(v: Value) {
    v.Str? && v.s != "" && Trim(v.s) == v.s
  }

  /** Filtering never adds tags. */
  lemma {:induction false} CleanTagsShorter(items: seq<Value>)
    ensures |CleanTags(items)| <= |items|
  {
    if items != [] {
      CleanTagsShorter(items[1..]);
    }
  }

  /** Every kept tag is a non-empty string with nothing left to trim. */
  lemma {:induction false} CleanTagsClean(items: seq<Value>)
    ensures forall i :: 0 <= i < |CleanTags(items)| ==> CleanTag(CleanTags(items)[i])
  {
    if items != [] {
      CleanTagsClean(items[1..]);
      var head := items[0];
      if head.Str? && Trim(head.s) != "" {
        TrimIdempotent(head.s);
        assert CleanTag(Str(Trim(head.s)));
      }
    }
  }

  /** Tags that are all clean already are kept as they are, in order. */
  lemma {:induction false} CleanTagsFixed(items: seq<Value>)
    requires forall i :: 0 <= i < |items| ==> CleanTag(items[i])
    ensures CleanTags(items) == items
  {
    if items != [] {
      assert forall i :: 0 <= i < |items| - 1 ==> items[1..][i] == items[i + 1];
      CleanTagsFixed(items[1..]);
      assert CleanTag(items[0]);
      assert items == [items[0]] + items[1..];
    }
  }

  /** Filtering the tags a second time changes nothing. */
  lemma CleanTagsIdempotent(items: seq<Value>)
    ensures CleanTags(CleanTags(items)) == CleanTags(items)
  {
    CleanTagsClean(items);
    CleanTagsFixed(CleanTags(items));
  }

  /** A tags block rejects a non-array and otherwise stores the cleaned array. */
  lemma TagsBlock(v: Value, questionType: Value, isValid: Value -> bool)
    ensures var c := Check(Tags, v, questionType, isValid);
      && (c.errors == [] <==> v.Arr?)
      && (v.Arr? ==> c.value == Arr(CleanTags(v.items)))
      && (!v.Arr? ==> c.errors == ["Tags must be an array"])
  {
  }

  // ---- Media ----

  /** The media block rejects a non-object. On an object it reports the type
      message iff the type is truthy and not in the block's list, then, for units,
      the duration message iff a present duration does not coerce to a
      non-negative integer; an accepted duration is written into the media object. */
  lemma MediaBlock(types: seq<string>, timed: bool, v: Value, questionType: Value, isValid: Value -> bool)
    ensures var c := Check(Media(types, timed), v, questionType, isValid);
      var t, d := Prop(v, "type"), Prop(v, "duration");
      && (!IsObject(v) ==> c.errors == ["Media must be an object"])
      && (IsObject(v) ==>
            c.errors == (if Truthy(t) && !Listed(t, types) then [EnumMessage("Media type", types)] else [])
                      + (if timed && d != Undefined && !IntegerIn(d, 0, None)
                         then ["Media duration must be a non-negative integer"] else []))
      && (timed && d != Undefined && IntegerIn(d, 0, None) ==>
            c.value == Obj(v.fields["duration" := Num(ToNumber(d).value)]))
  {
  }

  const PdfMedia := Obj(map["type" := Str("pdf")])

  /** A unit accepts "pdf" media while a question rejects it. */
  lemma MediaListsDiffer(questionType: Value, isValid: Value -> bool)
    ensures Check(Media(UnitMediaTypes, true), PdfMedia, questionType, isValid).errors == []
    ensures Check(Media(QuestionMediaTypes, false), PdfMedia, questionType, isValid).errors
         == [EnumMessage("Media type", QuestionMediaTypes)]
  {
    PdfListed();
    MediaBlock(UnitMediaTypes, true, PdfMedia, questionType, isValid);
    MediaBlock(QuestionMediaTypes, false, PdfMedia, questionType, isValid);
  }

  lemma PdfListed()
    ensures Prop(PdfMedia, "type") == Str("pdf") && Prop(PdfMedia, "duration") == Undefined
    ensures Listed(Str("pdf"), UnitMediaTypes) && !Listed(Str("pdf"), QuestionMediaTypes)
  {
    assert UnitMediaTypes[3] == "pdf";
  }

  // ---- Question payloads ----

  /** An MCQ payload passes iff it is an object with at least two options and a
      numeric answer index in [0, options.length); the option count is checked
      first. A fractional index is accepted. */
  lemma McqPayload(data: Value)
    ensures var options := Prop(data, "options");
      var answer := Prop(data, "correctAnswer");
      && (CheckQuestionData(Str("MCQ"), data) == None
          <==> IsObject(data) && options.Arr? && |options.items| >= 2
               && answer.Num? && 0.0 <= answer.n < |options.items| as real)
      && (IsObject(data) && !(options.Arr? && |options.items| >= 2) ==>
            CheckQuestionData(Str("MCQ"), data) == Some("MCQ must have at least 2 options"))
  {
  }

  lemma FractionalAnswerAccepted()
    ensures CheckQuestionData(Str("MCQ"), Obj(map["options" := Arr([Str("a"), Str("b")]), "correctAnswer" := Num(0.5)])) == None
  {
  }

  /** A fill-in-blank payload passes iff it is an object with a non-empty
      `correctAnswers` array. */
  lemma FillBlankPayload(data: Value)
    ensures CheckQuestionData(Str("FILL_BLANK"), data) == None
        <==> IsObject(data) && Prop(data, "correctAnswers").Arr? && |Prop(data, "correctAnswers").items| > 0
  {
  }

  /** A text payload passes iff it is an object whose `maxLength`, when present,
      coerces to a positive integer. */
  lemma TextPayload(data: Value)
    ensures CheckQuestionData(Str("TEXT"), data) == None
        <==> IsObject(data) && (Prop(data, "maxLength") != Undefined ==> IntegerIn(Prop(data, "maxLength"), 1, None))
  {
  }

  /** An audio payload passes iff it is an object with a non-empty string `audioUrl`. */
  lemma AudioPayload(data: Value)
    ensures CheckQuestionData(Str("AUDIO"), data) == None
        <==> IsObject(data) && Prop(data, "audioUrl").Str? && Prop(data, "audioUrl").s != ""
  {
  }

  /** Any other type, including one the type block has already rejected, throws
      "Unknown question type"; a falsy or non-object payload throws before the
      type is looked at. */
  lemma OtherPayload(questionType: Value, data: Value)
    ensures !Truthy(data) || !IsObject(data) ==> CheckQuestionData(questionType, data) == Some("Question data must be an object")
    ensures IsObject(data) && !Listed(questionType, QuestionTypes) ==>
      CheckQuestionData(questionType, data) == Some("Unknown question type: " + ToStr(questionType))
  {
  }

  // ---- Quirks of the tables ----

  /** `order: 0` on a full insert of a unit or a question yields two messages:
      the required loop finds it falsy and the order block finds it below 1. */
  lemma OrderZeroTwice(kind: Kind, data: Record, isValid: Value -> bool)
    requires kind != Course && Get(data, "order") == Num(0.0)
    ensures "order is required" in Checked(kind, data, false, isValid).errors
    ensures OrderMessage in Checked(kind, data, false, isValid).errors
  {
    OrderZeroMissing(kind, data, isValid);
    var i := OrderRule(kind);
    OrderZeroRejected(data, isValid);
    OwnedErrorIn(kind, data, false, isValid, i, OrderMessage);
  }

  lemma OrderZeroMissing(kind: Kind, data: Record, isValid: Value -> bool)
    requires kind != Course && Get(data, "order") == Num(0.0)
    ensures "order is required" in Checked(kind, data, false, isValid).errors
  {
    OrderRequired(kind);
    RequiredMessages(kind, data, false, isValid, "order");
    PrefixMember("order is required", RequiredErrors(kind, data, false), Checked(kind, data, false, isValid).errors);
  }

  lemma PrefixMember(x: string, a: seq<string>, b: seq<string>)
    requires x in a && a <= b
    ensures x in b
  {
    var i :| 0 <= i < |a| && a[i] == x;
    assert b[i] == x;
  }

  const OrderMessage := "Order must be a positive integer"

  lemma OrderRequired(kind: Kind)
    requires kind != Course
    ensures "order" in RequiredFields(kind) && "order" + " is required" == "order is required"
  {
  }

  /** The order block of the unit and question tables. */
  lemma OrderRule(kind: Kind) returns (i: nat)
    requires kind != Course
    ensures i < |Rules(kind)| && Rules(kind)[i] == FieldRule("order", Integer(1, None, OrderMessage))
  {
    i := if kind == Unit then 4 else 7;
  }

  lemma OrderZeroRejected(data: Record, isValid: Value -> bool)
    requires Get(data, "order") == Num(0.0)
    ensures OrderMessage in FieldErrors(FieldRule("order", Integer(1, None, OrderMessage)), data, Blocks(isValid))
  {
  }

  /** A message of one block on the record as given is among the validator's. */
  lemma OwnedErrorIn(kind: Kind, data: Record, isUpdate: bool, isValid: Value -> bool, i: nat, e: string)
    requires i < |Rules(kind)| && e in FieldErrors(Rules(kind)[i], data, Blocks(isValid))
    ensures e in Checked(kind, data, isUpdate, isValid).errors
  {
    CheckedErrors(kind, data, isUpdate, isValid);
    ErrorsOfContains(Rules(kind), data, Blocks(isValid), i, e);
  }

  /** A question whose type is not one of the four, with an object payload, yields
      both the type message and the payload's "Unknown question type". */
  lemma InvalidTypeTwice(data: Record, isUpdate: bool, isValid: Value -> bool)
    requires Get(data, "type") == Str("ESSAY") && IsObject(Get(data, "questionData"))
    ensures EnumMessage("Type", QuestionTypes) in Checked(Question, data, isUpdate, isValid).errors
    ensures "Unknown question type: ESSAY" in Checked(Question, data, isUpdate, isValid).errors
  {
    EssayTypeReported(data, isUpdate, isValid);
    EssayPayloadReported(data, isUpdate, isValid);
  }

  lemma EssayTypeReported(data: Record, isUpdate: bool, isValid: Value -> bool)
    requires Get(data, "type") == Str("ESSAY")
    ensures EnumMessage("Type", QuestionTypes) in Checked(Question, data, isUpdate, isValid).errors
  {
    QuestionTypeRule();
    EssayTypeRejected(data, isValid);
    OwnedErrorIn(Question, data, isUpdate, isValid, 2, EnumMessage("Type", QuestionTypes));
  }

  lemma EssayPayloadReported(data: Record, isUpdate: bool, isValid: Value -> bool)
    requires Get(data, "type") == Str("ESSAY") && IsObject(Get(data, "questionData"))
    ensures "Unknown question type: ESSAY" in Checked(Question, data, isUpdate, isValid).errors
  {
    QuestionPayloadRule();
    EssayPayloadRejected(data, isValid);
    OwnedErrorIn(Question, data, isUpdate, isValid, 9, "Unknown question type: ESSAY");
  }

  lemma QuestionTypeRule()
    ensures |Rules(Question)| == 11 && Rules(Question)[2] == FieldRule("type", OneOf("Type", QuestionTypes))
  {
  }

  lemma QuestionPayloadRule()
    ensures |Rules(Question)| == 11 && Rules(Question)[9] == FieldRule("questionData", Payload)
  {
  }

  lemma EssayTypeRejected(data: Record, isValid: Value -> bool)
    requires Get(data, "type") == Str("ESSAY")
    ensures FieldErrors(FieldRule("type", OneOf("Type", QuestionTypes)), data, Blocks(isValid)) == [EnumMessage("Type", QuestionTypes)]
  {
    assert !Listed(Str("ESSAY"), QuestionTypes);
  }

  lemma EssayPayloadRejected(data: Record, isValid: Value -> bool)
    requires Get(data, "type") == Str("ESSAY") && IsObject(Get(data, "questionData"))
    ensures FieldErrors(FieldRule("questionData", Payload), data, Blocks(isValid)) == ["Unknown question type: ESSAY"]
  {
    assert !Listed(Str("ESSAY"), QuestionTypes);
    assert "Unknown question type: " + ToStr(Str("ESSAY")) == "Unknown question type: ESSAY";
  }
}
