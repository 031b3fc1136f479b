/** The listing side of the course endpoint, `GET /api/courses`: the page and
    page size read from the query string, the MongoDB filter built from the
    other parameters, and the pagination metadata of the answer. */
module CourseQuery {
  import opened Wrappers
  import opened JsText
  import opened Js

  /** `new URL(request.url).searchParams`, one value per name. */
  type Params = map<string, string>

  /** `searchParams.get(k)`: None stands for null. */
  function Param(params: Params, k: string): Option<string> {
    if k in params then Some(params[k]) else None
  }

  // ---------------------------------------------------------------------------
  // parseInt

  /** `u` starts with "0x" or "0X", which makes parseInt read hexadecimal. */
  predicate HexPrefix(u: string) {
    |u| >= 2 && u[0] == '0' && (u[1] == 'x' || u[1] == 'X')
  }

  /** The value of the leading digits of `digits` in base 16 or 10; None when
      there are none. */
  function LeadingValue(digits: string, hex: bool): Option<nat> {
    var n := if hex then LeadingDigits(digits, 16) else LeadingDigits(digits, 10);
    if n == 0 then None
    else if hex then Some(DigitsValue(digits[..n], 16))
    else Some(DigitsValue(digits[..n], 10))
  }

  /** The global `parseInt(s)` without a radix (ECMA-262, section 19.2.5):
      leading white space and one sign are skipped, "0x" selects base 16, and
      the longest run of digits that follows is read; None stands for NaN. */
  function ParseInt(s: string): Option<int> {
    var t := TrimStart(s);
    var negative := t != [] && t[0] == '-';
    var u := if t != [] && (t[0] == '-' || t[0] == '+') then t[1..] else t;
    match Unsigned(u)
    case None => None
    case Some(v) =>
      var signed: int := if negative then -(v as int) else v;
      Some(signed)
  }

  /** The number after the sign: "0x" selects base 16. */
  function Unsigned(u: string): Option<nat> {
    var hex := HexPrefix(u);
    LeadingValue(if hex then u[2..] else u, hex)
  }

  /** `parseInt(searchParams.get(k))`: a missing parameter is parsed as the text
      "null", which has no digits. */
  function ParamInt(params: Params, k: string): Option<int> {
    match Param(params, k)
    case None => None
    case Some(s) => ParseInt(s)
  }

  /** Digits read back by the scan of leading digits. */
  lemma LeadingDecimal(u: string)
    requires u != [] && forall i :: 0 <= i < |u| ==> IsDigit(u[i], 10)
    ensures LeadingValue(u, false) == Some(DigitsValue(u, 10))
  {
    LeadingDigitsSpec(u, 10);
    assert u[..|u|] == u;
  }

  /** A run of decimal digits is read in base 10. */
  lemma UnsignedDigits(u: string)
    requires u != [] && forall i :: 0 <= i < |u| ==> IsDigit(u[i], 10)
    ensures Unsigned(u) == Some(DigitsValue(u, 10))
  {
    assert !HexPrefix(u) by {
      if |u| >= 2 {
        assert IsDigit(u[1], 10);
      }
    }
    LeadingDecimal(u);
  }

  /** An optional '-' followed by a number that starts with a digit: the sign
      is applied to the number's value. */
  lemma ParseSigned(s: string, u: string, negative: bool, v: nat)
    requires s == (if negative then "-" + u else u)
    requires u != [] && IsDigit(u[0], 10) && Unsigned(u) == Some(v)
    ensures ParseInt(s) == Some(if negative then -(v as int) else v as int)
  {
    if negative {
      assert s[0] == '-' && s[1..] == u;
      NoLeadingSpace(s);
    } else {
      NoLeadingSpace(u);
    }
  }

  /** Text that starts with a sign or a digit has no leading white space. */
  lemma NoLeadingSpace(s: string)
    requires s != [] && (s[0] == '-' || IsDigit(s[0], 10))
    ensures TrimStart(s) == s
  {
  }

  /** The decimal numeral of an integer is parsed back as that integer. */
  lemma ParseIntRoundTrip(i: int)
    ensures ParseInt(IntToString(i)) == Some(i)
  {
    var n: nat := if i < 0 then -i else i;
    NatToStringSpec(n);
    assert IntToString(i) == if i < 0 then "-" + NatToString(n) else NatToString(n);
    UnsignedDigits(NatToString(n));
    ParseSigned(IntToString(i), NatToString(n), i < 0, n);
  }

  /** Leading white space, a '+' sign and text after the digits are ignored. */
  lemma ParseIntLenient()
    ensures ParseInt(" +12px") == Some(12)
  {
    assert TrimStart(" +12px") == "+12px";
    assert "+12px"[1..] == "12px";
    assert LeadingDigits("12px", 10) == 2 by {
      assert "12px"[1..] == "2px" && "2px"[1..] == "px";
    }
    assert "12px"[..2] == "12" && "12"[..1] == "1" && "1"[..0] == "";
    assert LeadingValue("12px", false) == Some(12);
  }

  /** "0x" introduces hexadecimal digits. */
  lemma ParseIntHex()
    ensures ParseInt("0x1F") == Some(31)
  {
    assert "0x1F"[2..] == "1F";
    assert LeadingDigits("1F", 16) == 2 by {
      assert "1F"[1..] == "F" && "F"[1..] == "";
    }
    assert "1F"[..2] == "1F" && "1F"[..1] == "1" && "1"[..0] == "";
    assert LeadingValue("1F", true) == Some(31);
  }

  // ---------------------------------------------------------------------------
  // Page and page size

  /** `parseInt(searchParams.get("page")) || 1`: NaN and 0 give the first page. */
  function Page(params: Params): int {
    match ParamInt(params, "page")
    case Some(p) => if p != 0 then p else 1
    case None => 1
  }

  /** `Math.min(parseInt(searchParams.get("limit")) || 10, 50)` */
  function Limit(params: Params): int {
    var l := match ParamInt(params, "limit") case Some(l) => if l != 0 then l else 10 case None => 10;
    if l < 50 then l else 50
  }

  /** Neither the page nor the page size is ever 0; the size is at most 50 and
      either the parsed size or 50. Both default when the parameter is missing
      or unreadable. Nothing bounds them from below. */
  lemma PageAndLimit(params: Params)
    ensures Page(params) != 0 && Limit(params) != 0 && Limit(params) <= 50
    ensures ParamInt(params, "page").None? ==> Page(params) == 1
    ensures ParamInt(params, "limit").None? ==> Limit(params) == 10
    ensures ParamInt(params, "limit") == Some(0) ==> Limit(params) == 10
    ensures match ParamInt(params, "limit")
            case Some(l) => l != 0 ==> Limit(params) == if l < 50 then l else 50
            case None => true
    ensures match ParamInt(params, "page")
            case Some(p) => p != 0 ==> Page(params) == p
            case None => true
  {
  }

  /** A negative size is passed through, since only the upper bound is clamped. */
  lemma NegativeLimitKept()
    ensures Limit(map["limit" := "-5"]) == -5
  {
    assert ParseInt("-5") == Some(-5) by {
      assert IntToString(-5) == "-5";
      ParseIntRoundTrip(-5);
    }
  }

  /** `(page - 1) * limit` */
  function Skip(page: int, limit: int): int {
    (page - 1) * limit
  }

  /** `Math.ceil(a / b)` on exact quotients. */
  function CeilDiv(a: int, b: int): int
    requires b != 0
  {
    -((-(a as real / b as real)).Floor)
  }

  /** For a positive divisor the ceiling quotient is the least number of
      `b`-sized pages that hold `a` items. */
  lemma CeilDivBounds(a: nat, b: int)
    requires b > 0
    ensures CeilDiv(a, b) >= 0
    ensures CeilDiv(a, b) * b >= a
    ensures (CeilDiv(a, b) - 1) * b < a
  {
    var q := a as real / b as real;
    var k := CeilDiv(a, b);
    assert q <= k as real < q + 1.0;
    QuotientNonNegative(a, b);
    PagesHold(a, b, k);
    PagesFewer(a, b, k - 1);
  }

  /** The exact quotient of a count by a positive size is not negative. */
  lemma QuotientNonNegative(a: nat, b: int)
    requires b > 0
    ensures a as real / b as real >= 0.0
  {
  }

  /** `k` pages hold the items when `k` is at least the exact quotient. */
  lemma PagesHold(a: nat, b: int, k: int)
    requires b > 0 && a as real / b as real <= k as real
    ensures k * b >= a
  {
    var q, br := a as real / b as real, b as real;
    assert q * br == a as real;
    ScaleReal(q, k as real, br);
    assert (k * b) as real == k as real * br;
  }

  /** `j` pages fall short when `j` is below the exact quotient. */
  lemma PagesFewer(a: nat, b: int, j: int)
    requires b > 0 && j as real < a as real / b as real
    ensures j * b < a
  {
    var q, br := a as real / b as real, b as real;
    assert q * br == a as real;
    ScaleRealStrict(j as real, q, br);
    assert (j * b) as real == j as real * br;
  }

  /** Multiplying by a positive real keeps the order. */
  lemma ScaleReal(x: real, y: real, c: real)
    requires x <= y && c > 0.0
    ensures x * c <= y * c
  {
  }

  /** Multiplying by a positive real keeps the strict order. */
  lemma ScaleRealStrict(x: real, y: real, c: real)
    requires x < y && c > 0.0
    ensures x * c < y * c
  {
  }

  /** The pagination metadata of the answer. */
  datatype Pagination = Pagination(page: int, limit: int, totalCount: nat, totalPages: int, hasNext: bool, hasPrev: bool)

  function Paginate(page: int, limit: int, totalCount: nat): Pagination
    requires limit != 0
  {
    var totalPages := CeilDiv(totalCount, limit);
    Pagination(page, limit, totalCount, totalPages, page < totalPages, page > 1)
  }

  /** With a positive page size there is a next page exactly when the items
      before the end of this page are fewer than the total, and a previous one
      exactly when this page does not start at the first item. */
  lemma PaginationMeaning(page: int, limit: int, totalCount: nat)
    requires limit > 0 && page >= 1
    ensures Paginate(page, limit, totalCount).hasNext <==> Skip(page, limit) + limit < totalCount
    ensures Paginate(page, limit, totalCount).hasPrev <==> Skip(page, limit) > 0
    ensures Paginate(page, limit, totalCount).totalPages * limit >= totalCount
    ensures (Paginate(page, limit, totalCount).totalPages - 1) * limit < totalCount
  {
    var k := CeilDiv(totalCount, limit);
    CeilDivBounds(totalCount, limit);
    assert Skip(page, limit) + limit == page * limit;
    if page < k {
      ScaleMonotone(page, k - 1, limit);
    } else {
      ScaleMonotone(k, page, limit);
    }
    if page > 1 {
      ScaleMonotone(1, page - 1, limit);
    }
  }

  /** Multiplying by a positive number keeps the order. */
  lemma ScaleMonotone(x: int, y: int, c: int)
    requires x <= y && c > 0
    ensures x * c <= y * c
  {
  }

  // ---------------------------------------------------------------------------
  // The filter

  /** `{ $regex: search, $options: "i" }` */
  function Matching(search: string): Value {
    Obj(map["$regex" := Str(search), "$options" := Str("i")])
  }

  /** The three-field text search. */
  function SearchClause(search: string): Value {
    Arr([Obj(map["title" := Matching(search)]),
         Obj(map["description" := Matching(search)]),
         Obj(map["instructor" := Matching(search)])])
  }

  /** A parameter given with non-empty text. */
  predicate Given(params: Params, k: string) {
    k in params && params[k] != ""
  }

  /** The filter, set field by field as the handler does; None when
      `new ObjectId(instructorId)` throws on a malformed id. */
  function BuildFilter(params: Params, isValid: Value -> bool): Option<map<string, Value>> {
    var f: map<string, Value> := map[];
    var f := if Given(params, "category") then f["category" := Str(params["category"])] else f;
    var f := if Given(params, "level") then f["level" := Str(params["level"])] else f;
    var f := if "published" in params then f["isPublished" := Bool(params["published"] == "true")] else f;
    if Given(params, "instructorId") && !isValid(Str(params["instructorId"])) then None
    else
      var f := if Given(params, "instructorId") then f["instructorId" := Oid(Str(params["instructorId"]))] else f;
      Some(if Given(params, "search") then f["$or" := SearchClause(params["search"])] else f)
  }

  /** Each condition appears exactly when its parameter is given non-empty;
      `isPublished` appears whenever `published` is present at all, and is true
      only for the exact text "true"; nothing else is filtered on. */
  lemma FilterFields(params: Params, isValid: Value -> bool)
    requires BuildFilter(params, isValid).Some?
    ensures var f := BuildFilter(params, isValid).value;
      && f.Keys <= {"category", "level", "isPublished", "instructorId", "$or"}
      && ("category" in f <==> Given(params, "category"))
      && ("level" in f <==> Given(params, "level"))
      && ("instructorId" in f <==> Given(params, "instructorId"))
      && ("$or" in f <==> Given(params, "search"))
      && ("isPublished" in f <==> "published" in params)
      && ("isPublished" in f ==> f["isPublished"] == Bool(params["published"] == "true"))
      && ("category" in f ==> f["category"] == Str(params["category"]))
      && ("level" in f ==> f["level"] == Str(params["level"]))
      && ("instructorId" in f ==> f["instructorId"] == Oid(Str(params["instructorId"])))
      && ("$or" in f ==> f["$or"] == SearchClause(params["search"]))
  {
  }

  /** The filter fails exactly on a given instructor id the driver rejects. */
  lemma FilterFails(params: Params, isValid: Value -> bool)
    ensures BuildFilter(params, isValid).None? <==> Given(params, "instructorId") && !isValid(Str(params["instructorId"]))
  {
  }

  /** The query the handler sends and the metadata it answers with, given the
      count of matching courses. */
  datatype Listing = Listing(filter: map<string, Value>, skip: int, limit: int, pagination: Pagination)

  /** `GET /api/courses`; None is the 500 answer "Failed to fetch courses" that a
      malformed `instructorId` causes. A negative skip or an invalid `$regex`
      also ends in that 500, but only when the database runs the query, which
      is not part of this model. */
  function List(params: Params, totalCount: nat, isValid: Value -> bool): (r: Option<Listing>)
    ensures r.Some? <==> BuildFilter(params, isValid).Some?
  {
    PageAndLimit(params);
    match BuildFilter(params, isValid)
    case None => None
    case Some(f) =>
      var page := Page(params);
      var limit := Limit(params);
      Some(Listing(f, Skip(page, limit), limit, Paginate(page, limit, totalCount)))
  }

  /** Without parameters the first ten unfiltered courses are asked for. */
  lemma DefaultListing(totalCount: nat, isValid: Value -> bool)
    ensures var r := List(map[], totalCount, isValid);
      && r.Some? && r.value.filter == map[] && r.value.skip == 0 && r.value.limit == 10
      && r.value.pagination.page == 1 && !r.value.pagination.hasPrev
      && (r.value.pagination.hasNext <==> totalCount > 10)
  {
    PaginationMeaning(1, 10, totalCount);
  }
}
