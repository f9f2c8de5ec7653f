/** Scalar values held in record attributes, PHP's loose notions over them
    (is_numeric, string conversion, truthiness), and the error taxonomy. */
module Values {

  datatype Option<+T> = None | Some(value: T)

  /** An attribute or query value: the model restricts PHP values to null,
      integers, strings and lists of those. */
  datatype Value = VNull | VInt(i: int) | VStr(s: string) | VList(items: seq<Value>)

  /** A row as the connection returns it: column name to value. */
  type Row = map<string, Value>

  /** An eager-load request entry: a callback (identified by a number, its
      behaviour supplied by the environment) or a literal value. */
  datatype Entry = Callback(id: nat) | Literal(v: Value)

  /** Errors the core raises. */
  datatype Error =
    | MassAssignmentError   // fill without allowedFields while protectFields is on
    | ModelError            // create/update with an empty column set
    | DatabaseError         // the connection reported no generated id
    | RecordNotFound        // firstOrFail found nothing
    | LogicError            // a relation name or polymorphic tag that resolves to nothing
    | TypeError             // a null or non-string argument where a string is required

  datatype Result<+T> = Ok(value: T) | Err(error: Error)

  predicate IsDigit(c: char) { '0' <= c <= '9' }

  predicate AllDigits(s: string) { forall i :: 0 <= i < |s| ==> IsDigit(s[i]) }

  /** Number of leading decimal digits of s. */
  function LeadingDigits(s: string): (n: nat)
    ensures n <= |s|
    ensures AllDigits(s[..n])
    ensures n < |s| ==> !IsDigit(s[n])
  {
    if s == [] || !IsDigit(s[0]) then 0 else 1 + LeadingDigits(s[1..])
  }

  /** Digits with an optional fraction part, at least one digit overall. */
  predicate IsUnsignedDecimal(b: string) {
    var k := LeadingDigits(b);
    if k == |b| then k > 0
    else b[k] == '.' && AllDigits(b[k+1..]) && (k > 0 || |b| > k + 1)
  }

  /** PHP's is_numeric for strings, restricted to an optional sign followed by
      a decimal number (no exponent, no surrounding whitespace). */
  predicate IsNumericString(s: string) {
    |s| > 0 &&
    if s[0] == '+' || s[0] == '-' then IsUnsignedDecimal(s[1..]) else IsUnsignedDecimal(s)
  }

  function DigitChar(d: nat): char
    requires d < 10
  {
    ['0','1','2','3','4','5','6','7','8','9'][d]
  }

  /** Decimal text of a natural number. */
  function NatToString(n: nat): (r: string)
    ensures |r| > 0 && AllDigits(r)
    ensures n < 10 <==> |r| == 1
  {
    if n < 10 then [DigitChar(n)] else NatToString(n / 10) + [DigitChar(n % 10)]
  }

  /** PHP's (string) cast of an integer. */
  function IntToString(i: int): (r: string)
    ensures IsNumericString(r)
  {
    var r := if i < 0 then "-" + NatToString(-i) else NatToString(i);
    AllDigitsAreDecimal(NatToString(if i < 0 then -i else i));
    assert i < 0 ==> r[1..] == NatToString(-i);
    r
  }

  lemma AllDigitsAreDecimal(s: string)
    requires |s| > 0 && AllDigits(s)
    ensures LeadingDigits(s) == |s| && IsUnsignedDecimal(s)
  {
    if |s| > 1 {
      AllDigitsAreDecimal(s[1..]);
    }
  }

  /** PHP's (string) cast; an array converts to the text "Array". */
  function StringForm(v: Value): string {
    match v
    case VNull => ""
    case VInt(i) => IntToString(i)
    case VStr(s) => s
    case VList(_) => "Array"
  }

  /** PHP's is_numeric. */
  predicate IsNumeric(v: Value) {
    match v
    case VInt(_) => true
    case VStr(s) => IsNumericString(s)
    case _ => false
  }

  /** PHP truthiness of a string: "" and "0" are false. */
  predicate TruthyString(s: string) { s != "" && s != "0" }

  /** PHP truthiness of a value. */
  predicate Truthy(v: Value) {
    match v
    case VNull => false
    case VInt(i) => i != 0
    case VStr(s) => TruthyString(s)
    case VList(xs) => xs != []
  }

  /** `$x ? $x : $default` on an optional string argument. */
  function OrDefault(o: Option<string>, default: string): (r: string)
    ensures o.Some? && TruthyString(o.value) ==> r == o.value
    ensures !(o.Some? && TruthyString(o.value)) ==> r == default
  {
    if o.Some? && TruthyString(o.value) then o.value else default
  }
}
