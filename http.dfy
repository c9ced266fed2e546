/** What the search controllers read from a request and answer with. A
    request is its query parameters, each absent or a single string; a
    response is the status and body `res` is given. Integer parameters are
    decimal texts with an optional sign, which `Number` and
    `parseInt(…, 10)` read the same way. */
module Http {
  import opened Wrappers
  import opened Text
  import opened Types
  import opened Paging

  /** The query parameters the controllers read. */
  datatype Request = Request(
    skills: Option<string>,
    location: Option<string>,
    salaryMin: Option<string>,
    salaryMax: Option<string>,
    limit: Option<string>,
    offset: Option<string>)

  datatype Response =
    | Ok(result: SearchResult)            // 200, the result as JSON
    | CsvAttachment(content: string)      // 200, `text/csv`, sent as an attachment
    | InvalidParameters                   // 400, the validator's errors
    | BadRequest(error: string)           // 400, with a message
    | Forbidden(error: string)            // 403
    | ServerError(error: string)          // 500

  function Status(r: Response): int {
    match r
    case Ok(_) => 200
    case CsvAttachment(_) => 200
    case InvalidParameters => 400
    case BadRequest(_) => 400
    case Forbidden(_) => 403
    case ServerError(_) => 500
  }

  const SkillRequired: string := "At least one skill is required"
  const InternalError: string := "Internal server error"
  const ExportFailed: string := "Failed to export search results"
  const ExportDisabled: string := "Export service is disabled"

  /** The limit and offset every export searches with. */
  const ExportLimit: int := 1000
  const ExportOffset: int := 0

  /** The largest limit a search passes on. */
  const MaxLimit: int := 100

  predicate IsDigit(c: char) {
    '0' <= c <= '9'
  }

  predicate AllDigits(s: string) {
    forall i :: 0 <= i < |s| ==> IsDigit(s[i])
  }

  /** The digits of an integer text, after its sign if it has one. */
  function Unsigned(s: string): string {
    if |s| > 0 && (s[0] == '-' || s[0] == '+') then s[1..] else s
  }

  /** An integer text: an optional sign and at least one decimal digit. */
  predicate IsIntText(s: string) {
    |Unsigned(s)| > 0 && AllDigits(Unsigned(s))
  }

  function DigitsValue(s: string): nat
    requires AllDigits(s)
    decreases |s|
  {
    if |s| == 0 then 0
    else 10 * DigitsValue(s[..|s| - 1]) + (s[|s| - 1] as int - '0' as int)
  }

  /** The number an integer text stands for. */
  function IntValue(s: string): int
    requires IsIntText(s)
  {
    if s[0] == '-' then -(DigitsValue(s[1..]) as int) else DigitsValue(Unsigned(s))
  }

  lemma DigitCharValue(d: nat)
    requires d < 10
    ensures IsDigit(DigitChar(d)) && DigitChar(d) as int - '0' as int == d
  {
  }

  /** Reading back the decimal form of a natural number gives the number. */
  lemma {:induction false} NatTextValue(n: nat)
    ensures AllDigits(NatToString(n)) && DigitsValue(NatToString(n)) == n
    decreases n
  {
    var s := NatToString(n);
    if n < 10 {
      DigitCharValue(n);
    } else {
      NatTextValue(n / 10);
      DigitCharValue(n % 10);
      assert s[..|s| - 1] == NatToString(n / 10);
    }
  }

  /** Every integer's `toString()` is an integer text that reads back as
      the integer. */
  lemma IntTextValue(n: int)
    ensures IsIntText(IntToString(n)) && IntValue(IntToString(n)) == n
  {
    var s := IntToString(n);
    if n < 0 {
      SignedTextValue(-n, s);
    } else {
      UnsignedTextValue(n, s);
    }
  }

  lemma SignedTextValue(m: nat, s: string)
    requires s == "-" + NatToString(m)
    ensures IsIntText(s) && IntValue(s) == -(m as int)
  {
    var t := NatToString(m);
    NatTextValue(m);
    assert s[1..] == t;
    assert Unsigned(s) == t;
  }

  lemma UnsignedTextValue(m: nat, s: string)
    requires s == NatToString(m)
    ensures IsIntText(s) && IntValue(s) == m
  {
    NatTextValue(m);
    assert '0' <= s[0] <= '9';
    assert Unsigned(s) == s;
  }

  /** `.map((s) => s.trim())`. */
  function TrimAll(parts: seq<string>): (r: seq<string>)
    ensures |r| == |parts|
    ensures forall i :: 0 <= i < |r| ==> r[i] == Trim(parts[i])
  {
    seq(|parts|, i requires 0 <= i < |parts| => Trim(parts[i]))
  }

  /** Trimming the parts of two lists is trimming the parts of the joined
      list. */
  lemma TrimAllConcat(a: seq<string>, b: seq<string>)
    ensures TrimAll(a + b) == TrimAll(a) + TrimAll(b)
  {
    var whole, joined := TrimAll(a + b), TrimAll(a) + TrimAll(b);
    assert |whole| == |joined|;
    forall i | 0 <= i < |whole|
      ensures whole[i] == joined[i]
    {
      if i < |a| {
        assert (a + b)[i] == a[i] && joined[i] == TrimAll(a)[i];
      } else {
        assert (a + b)[i] == b[i - |a|] && joined[i] == TrimAll(b)[i - |a|];
      }
    }
  }

  /** The trimmed parts are exactly the trims of the parts. */
  lemma TrimmedMembers(parts: seq<string>)
    ensures forall x :: x in TrimAll(parts) <==> exists seg :: seg in parts && Trim(seg) == x
  {
    var trimmed := TrimAll(parts);
    forall x | x in trimmed
      ensures exists seg :: seg in parts && Trim(seg) == x
    {
      var i :| 0 <= i < |trimmed| && trimmed[i] == x;
      assert parts[i] in parts;
    }
    forall x, seg | seg in parts && Trim(seg) == x
      ensures x in trimmed
    {
      var i :| 0 <= i < |parts| && parts[i] == seg;
      assert trimmed[i] == x;
    }
  }

  /** Trimming only removes characters from the ends of a string. */
  lemma TrimInside(s: string)
    ensures forall c :: c in Trim(s) ==> c in s
  {
    var t := TrimStart(s);
    var r := TrimEnd(t);
    assert forall c :: c in r ==> c in t;
    assert forall c :: c in t ==> c in s;
  }

  /** `filter(Boolean)` on strings: keeps the non-empty ones. */
  function NonBlank(s: string): bool {
    s != ""
  }

  /** A parameter `Number` or `parseInt` can read when it is present and
      not empty. */
  predicate Readable(p: Option<string>) {
    p.Some? && p.value != "" ==> IsIntText(p.value)
  }

  /** `p ? Number(p) : undefined`: the number a non-empty parameter
      holds; nothing for an absent or empty one. */
  function OptionalInt(p: Option<string>): (r: Option<int>)
    requires Readable(p)
    ensures r.None? <==> p.None? || p.value == ""
    ensures r.Some? ==> r.value == IntValue(p.value)
  {
    if p.Some? && p.value != "" then Some(IntValue(p.value)) else None
  }
}
