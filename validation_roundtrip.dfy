/** Validating a validated record again. The normal forms the blocks write are
    accepted by the same blocks and left as they are, so a record that passed
    once passes a partial update unchanged but for a fresh `updatedAt`, unless
    trimming took a text field below its minimum. */
module ValidationRoundTrip {
  import opened Wrappers
  import opened JsText
  import opened Js
  import opened Validation
  import opened ValidationProps

  /** Every trimmed text the validator stored still fits its block's bounds. */
  predicate TrimmedTextFits(kind: Kind, out: Record) {
    forall i :: 0 <= i < |Rules(kind)| ==> TextFits(Rules(kind)[i], out)
  }

  /** A trimming text block's stored string lies within its bounds. */
  predicate TextFits(fr: FieldRule, out: Record) {
    fr.rule.Text? && fr.rule.trims && Get(out, fr.field).Str? ==>
      fr.rule.min <= Utf16Length(Get(out, fr.field).s) <= fr.rule.max
  }

  /** ObjectId.isValid accepts every id the validator stored. */
  predicate StoredIdsValid(kind: Kind, out: Record, isValid: Value -> bool) {
    forall i :: 0 <= i < |Rules(kind)| && Rules(kind)[i].rule.Ref? && Get(out, Rules(kind)[i].field) != Undefined ==>
      isValid(Get(out, Rules(kind)[i].field))
  }

  /** A media object the media block accepted is accepted again and kept. */
  lemma MediaStable(types: seq<string>, timed: bool, media: Value)
    requires CheckMedia(types, timed, media).errors == []
    ensures CheckMedia(types, timed, CheckMedia(types, timed, media).value)
         == FieldCheck([], CheckMedia(types, timed, media).value)
  {
    var d := Prop(media, "duration");
    if timed && d != Undefined {
      var w := CheckMedia(types, timed, media).value;
      assert Prop(w, "type") == Prop(media, "type");
      assert Prop(w, "duration") == Num(ToNumber(d).value);
      assert w.fields["duration" := Num(ToNumber(d).value)] == w.fields;
    }
  }

  /** A text block accepts the text it stored when that still fits. */
  lemma TextStable(min: nat, max: nat, trims: bool, typeMsg: string, lengthMsg: string, v: Value, questionType: Value, isValid: Value -> bool)
    requires Check(Text(min, max, trims, typeMsg, lengthMsg), v, questionType, isValid).errors == []
    requires trims ==> min <= Utf16Length(Trim(v.s)) <= max
    ensures var w := Check(Text(min, max, trims, typeMsg, lengthMsg), v, questionType, isValid).value;
      Check(Text(min, max, trims, typeMsg, lengthMsg), w, questionType, isValid) == FieldCheck([], w)
  {
    if trims {
      TrimIdempotent(v.s);
    }
  }

  /** The tags block keeps the tags it cleaned. */
  lemma TagsStable(v: Value, questionType: Value, isValid: Value -> bool)
    requires Check(Tags, v, questionType, isValid).errors == []
    ensures var w := Check(Tags, v, questionType, isValid).value;
      Check(Tags, w, questionType, isValid) == FieldCheck([], w)
  {
    CleanTagsIdempotent(v.items);
  }

  /** The number blocks keep the number they stored. */
  lemma NumberStable(rule: Rule, v: Value, questionType: Value, isValid: Value -> bool)
    requires rule.Price? || rule.Integer?
    requires Check(rule, v, questionType, isValid).errors == []
    ensures var w := Check(rule, v, questionType, isValid).value;
      Check(rule, w, questionType, isValid) == FieldCheck([], w)
  {
    var n := ToNumber(v).value;
    assert ToNumber(Num(n)) == Some(n);
  }

  /** A block accepts the value it wrote and leaves it as it is, given that a
      trimmed text still fits and a stored id is still valid. */
  lemma BlockStable(fr: FieldRule, v: Value, questionType: Value, isValid: Value -> bool, out: Record)
    requires Check(fr.rule, v, questionType, isValid).errors == []
    requires Get(out, fr.field) == Check(fr.rule, v, questionType, isValid).value
    requires TextFits(fr, out)
    requires fr.rule.Ref? ==> isValid(Get(out, fr.field))
    ensures Check(fr.rule, Get(out, fr.field), questionType, isValid) == FieldCheck([], Get(out, fr.field))
  {
    match fr.rule
    case Text(min, max, trims, typeMsg, lengthMsg) =>
      TextStable(min, max, trims, typeMsg, lengthMsg, v, questionType, isValid);
    case Tags =>
      TagsStable(v, questionType, isValid);
    case Media(types, timed) =>
      MediaStable(types, timed, v);
    case Price =>
      NumberStable(fr.rule, v, questionType, isValid);
    case Integer(_, _, _) =>
      NumberStable(fr.rule, v, questionType, isValid);
    case _ =>
  }

  /** A table whose every block is silent collects no message. */
  lemma {:induction false} NoErrors(rules: seq<FieldRule>, data: Record, check: Checker)
    requires forall i :: 0 <= i < |rules| ==> FieldErrors(rules[i], data, check) == []
    ensures ErrorsOf(rules, data, check) == []
  {
    if rules != [] {
      var init := rules[..|rules| - 1];
      assert forall i :: 0 <= i < |init| ==> init[i] == rules[i];
      NoErrors(init, data, check);
    }
  }

  /** The validated copy and the record it came from agree on `type`. */
  lemma TypeKept(kind: Kind, data: Record, isUpdate: bool, now: int, isValid: Value -> bool, out: Record)
    requires Validated(kind, data, isUpdate, now, isValid) == Success(out)
    ensures Get(out, "type") == Get(data, "type")
  {
    ValidatedExhaustive(kind, data, isUpdate, now, isValid);
    TablesWellFormed(kind, isValid);
    RunType(RequiredErrors(kind, data, isUpdate), Rules(kind), data, Blocks(isValid));
    StampSpec(Checked(kind, data, isUpdate, isValid).sanitized, isUpdate, now);
  }

  /** On a record that passed, each block was silent, and the validated copy
      holds the value the block wrote. */
  lemma PassedField(kind: Kind, data: Record, isUpdate: bool, now: int, isValid: Value -> bool, out: Record, i: nat)
    requires Validated(kind, data, isUpdate, now, isValid) == Success(out)
    requires i < |Rules(kind)|
    ensures FieldErrors(Rules(kind)[i], data, Blocks(isValid)) == []
    ensures Get(out, Rules(kind)[i].field) == FieldValue(Rules(kind)[i], data, Blocks(isValid))
  {
    var rules, check := Rules(kind), Blocks(isValid);
    var fr := rules[i];
    var st := Checked(kind, data, isUpdate, isValid);
    ValidatedExhaustive(kind, data, isUpdate, now, isValid);
    CheckedErrors(kind, data, isUpdate, isValid);
    if FieldErrors(fr, data, check) != [] {
      ErrorsOfContains(rules, data, check, i, FieldErrors(fr, data, check)[0]);
      assert false;
    }
    assert fr.field in Fields(rules);
    TableFields(kind);
    StampsUnowned(kind);
    StampSpec(st.sanitized, isUpdate, now);
    CheckedOwned(kind, data, isUpdate, isValid, i);
  }

  /** Each block of the table is silent on the validated copy and keeps its field. */
  lemma FieldStable(kind: Kind, data: Record, isUpdate: bool, now: int, isValid: Value -> bool, out: Record, i: nat)
    requires Validated(kind, data, isUpdate, now, isValid) == Success(out)
    requires TrimmedTextFits(kind, out) && StoredIdsValid(kind, out, isValid)
    requires i < |Rules(kind)|
    ensures FieldErrors(Rules(kind)[i], out, Blocks(isValid)) == []
    ensures FieldValue(Rules(kind)[i], out, Blocks(isValid)) == Get(out, Rules(kind)[i].field)
  {
    var fr := Rules(kind)[i];
    PassedField(kind, data, isUpdate, now, isValid, out, i);
    var v := Get(data, fr.field);
    if v != Undefined {
      TypeKept(kind, data, isUpdate, now, isValid, out);
      assert TextFits(fr, out);
      BlockStable(fr, v, Get(data, "type"), isValid, out);
    }
  }

  /** A record that passed validation passes a partial update with the same
      fields, only `updatedAt` refreshed, when its trimmed texts still fit their
      bounds and ObjectId.isValid accepts its stored ids. */
  lemma Revalidate(kind: Kind, data: Record, isUpdate: bool, now: int, later: int, isValid: Value -> bool, out: Record)
    requires Validated(kind, data, isUpdate, now, isValid) == Success(out)
    requires TrimmedTextFits(kind, out) && StoredIdsValid(kind, out, isValid)
    ensures Validated(kind, out, true, later, isValid) == Success(out["updatedAt" := Date(later)])
  {
    var rules, check := Rules(kind), Blocks(isValid);
    forall i | 0 <= i < |rules|
      ensures FieldErrors(rules[i], out, check) == []
      ensures FieldValue(rules[i], out, check) == Get(out, rules[i].field)
    {
      FieldStable(kind, data, isUpdate, now, isValid, out, i);
    }
    NoErrors(rules, out, check);
    CheckedErrors(kind, out, true, isValid);
    var st := Checked(kind, out, true, isValid);
    StampsUnowned(kind);
    CheckedUnowned(kind, out, true, isValid, "createdAt");
    TableNames(kind);
    forall k | k in out
      ensures st.sanitized[k] == out[k]
    {
      if k in Names(kind) {
        var i :| 0 <= i < |Names(kind)| && Names(kind)[i] == k;
        CheckedOwned(kind, out, true, isValid, i);
      } else {
        CheckedUnowned(kind, out, true, isValid, k);
      }
    }
    assert st.sanitized == out;
    ValidatedExhaustive(kind, out, true, later, isValid);
    StampSpec(out, true, later);
    assert Stamp(out, true, later) == out["updatedAt" := Date(later)];
  }

  /** Without the bounds condition the round trip fails: a partial update of a
      course with the title "  ab" passes and stores "ab", and validating that
      result again rejects the two-character title. */
  lemma RevalidationCanFail(now: int, later: int, isValid: Value -> bool)
    ensures var data := map["title" := Str("  ab")];
      && Validated(Course, data, true, now, isValid).Success?
      && Get(Validated(Course, data, true, now, isValid).value, "title") == Str("ab")
      && Validated(Course, Validated(Course, data, true, now, isValid).value, true, later, isValid).Failure?
  {
    var data := map["title" := Str("  ab")];
    var rules, check := Rules(Course), Blocks(isValid);
    TableFields(Course);
    CourseTitleRule();
    TitleBlockTrims(data, isValid);
    forall i | 0 <= i < |rules|
      ensures FieldErrors(rules[i], data, check) == []
    {
      if i != 0 {
        assert rules[i].field != rules[0].field;
      }
    }
    NoErrors(rules, data, check);
    CheckedErrors(Course, data, true, isValid);
    ValidatedExhaustive(Course, data, true, now, isValid);
    var out := Validated(Course, data, true, now, isValid).value;
    TitleShorterThanMinimum(data, true, isValid);
    StampSpec(Checked(Course, data, true, isValid).sanitized, true, now);
    assert Get(out, "title") == Str("ab");
    var msg := "Title must be between 3 and 200 characters";
    assert Utf16Length("ab") == 2;
    TextBlock(3, 200, true, "Title must be a string", msg, Str("ab"), Get(out, "type"), isValid);
    assert msg in FieldErrors(rules[0], out, check);
    OwnedErrorIn(Course, out, true, isValid, 0, msg);
    ValidatedExhaustive(Course, out, true, later, isValid);
  }
}
