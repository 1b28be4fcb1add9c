/**
 * The values that `JSON.parse` produces, and the pieces of JavaScript
 * semantics the client relies on when it inspects them: reading a property
 * (`v.key`), truthiness (`x || ""`), and the conversions `ToNumber` and
 * `ToString` that the `-` and `>` operators apply.
 */
module Json {
  import opened Wrappers

  /** A parsed JSON document. Numbers are modelled as integers. */
  datatype Json =
    | JNull
    | JBool(b: bool)
    | JNum(n: int)
    | JStr(s: string)
    | JArr(items: seq<Json>)
    | JObj(fields: map<string, Json>)

  /** Why a call of the client fails: the value a promise is rejected with, or the exception thrown. */
  datatype Error =
    | TransportError(cause: string)  // the `err` the transport hands to the callback
    | JsonError                      // the string "JSON Error"
    | NoNotifications                // the string "No notifications"
    | TypeError                      // a property read on null or undefined, or a call of a non-function
    | SyntaxError                    // what `JSON.parse` throws on malformed text

  /** `v.key` for a parsed value `v`: `None` stands for `undefined`, and reading from `null` throws. */
  function Member(v: Json, key: string): (r: Result<Option<Json>, Error>)
    ensures r.Failure? <==> v == JNull
    ensures r.Failure? ==> r.error == TypeError
    ensures r.Success? ==> (r.value.Some? <==> v.JObj? && key in v.fields)
    ensures r.Success? && r.value.Some? ==> r.value.value == v.fields[key]
  {
    match v
    case JNull => Failure(TypeError)
    case JObj(m) => Success(if key in m then Some(m[key]) else None)
    case _ => Success(None)
  }

  /** `o.key` where `o` may itself be `undefined` (`None`), which throws like `null`. */
  function Read(o: Option<Json>, key: string): (r: Result<Option<Json>, Error>)
    ensures o.None? ==> r == Failure(TypeError)
    ensures o.Some? ==> r == Member(o.value, key)
  {
    match o
    case None => Failure(TypeError)
    case Some(v) => Member(v, key)
  }

  /** JavaScript truthiness of a parsed value. */
  predicate Truthy(v: Json)
  {
    match v
    case JNull => false
    case JBool(b) => b
    case JNum(n) => n != 0
    case JStr(s) => s != ""
    case JArr(_) => true
    case JObj(_) => true
  }

  /** `x || ""` for a property read `x` that did not throw. */
  function OrEmpty(x: Option<Json>): (r: Json)
    ensures x.Some? && Truthy(x.value) ==> r == x.value
    ensures !(x.Some? && Truthy(x.value)) ==> r == JStr("")
  {
    if x.Some? && Truthy(x.value) then x.value else JStr("")
  }

  // ---------------------------------------------------------------------
  // ToNumber and ToString.
  // ---------------------------------------------------------------------

  /** A JavaScript number as the model carries it: an integer, or NaN. */
  datatype Num = Int(i: int) | NaN

  /** The white space and line terminators that `ToNumber` strips from both ends of a string. */
  predicate IsSpace(c: char)
  {
    || c == '\t' || c == '\n' || c == '\U{B}' || c == '\U{C}' || c == '\r' || c == ' '
    || c == '\U{A0}' || c == '\U{1680}' || '\U{2000}' <= c <= '\U{200A}'
    || c == '\U{2028}' || c == '\U{2029}' || c == '\U{202F}' || c == '\U{205F}'
    || c == '\U{3000}' || c == '\U{FEFF}'
  }

  /** s without its leading white space. */
  function TrimStart(s: string): (r: string)
    ensures |r| <= |s| && r == s[|s| - |r|..]
    ensures r == [] || !IsSpace(r[0])
    ensures forall i :: 0 <= i < |s| - |r| ==> IsSpace(s[i])
  {
    if s != [] && IsSpace(s[0]) then TrimStart(s[1..]) else s
  }

  /** s without its trailing white space. */
  function TrimEnd(s: string): (r: string)
    ensures |r| <= |s| && r == s[..|r|]
    ensures r == [] || !IsSpace(r[|r| - 1])
    ensures forall i :: |r| <= i < |s| ==> IsSpace(s[i])
  {
    if s != [] && IsSpace(s[|s| - 1]) then TrimEnd(s[..|s| - 1]) else s
  }

  /** The value of c as a digit of the given radix (letters for 10 and up), or None. */
  function DigitValue(c: char, radix: nat): (d: Option<nat>)
    ensures d.Some? ==> d.value < radix
    ensures d.Some? ==> '0' <= c <= '9' || 'a' <= c <= 'z' || 'A' <= c <= 'Z'
  {
    var v :=
      if '0' <= c <= '9' then c as int - '0' as int
      else if 'a' <= c <= 'z' then c as int - 'a' as int + 10
      else if 'A' <= c <= 'Z' then c as int - 'A' as int + 10
      else radix;
    if v < radix then Some(v) else None
  }

  /** The value of a run of digits of the given radix, most significant first; None when a character is not such a digit. */
  function DigitsValue(ds: string, radix: nat): Option<nat>
  {
    if ds == [] then Some(0)
    else
      match DigitsValue(ds[..|ds| - 1], radix)
      case None => None
      case Some(high) =>
        match DigitValue(ds[|ds| - 1], radix)
        case None => None
        case Some(d) => Some(high * radix + d)
  }

  /** The radix a `0x`, `0o` or `0b` prefix selects, or None for any other letter. */
  function Radix(c: char): (r: Option<nat>)
    ensures r.Some? ==> c !in "0123456789"
  {
    if c == 'x' || c == 'X' then Some(16)
    else if c == 'o' || c == 'O' then Some(8)
    else if c == 'b' || c == 'B' then Some(2)
    else None
  }

  /**
   * `ToNumber` of a string, for the integer literals: once the white space
   * at both ends is trimmed, the empty string is 0, an optionally signed run
   * of decimal digits is its value, and `0x`, `0o` or `0b` followed by
   * digits of that radix is their value; any other text is NaN.
   */
  function StringToNumber(s: string): Num
  {
    LiteralValue(TrimEnd(TrimStart(s)))
  }

  /** The number a trimmed string spells. */
  function LiteralValue(t: string): Num
  {
    if t == [] then Int(0)
    else if |t| > 2 && t[0] == '0' && Radix(t[1]).Some? then
      match DigitsValue(t[2..], Radix(t[1]).value)
      case Some(v) => Int(v)
      case None => NaN
    else if t[0] == '-' || t[0] == '+' then
      if |t| == 1 then NaN
      else
        match DigitsValue(t[1..], 10)
        case Some(v) => Int(if t[0] == '-' then 0 - v else v)
        case None => NaN
    else
      match DigitsValue(t, 10)
      case Some(v) => Int(v)
      case None => NaN
  }

  function DigitChar(d: nat): (c: char)
    requires d < 10
    ensures DigitValue(c, 10) == Some(d)
  {
    "0123456789"[d]
  }

  /** The decimal digits of n, most significant first, with no leading zero. */
  function Digits(n: nat): (r: string)
    ensures |r| >= 1
    ensures forall i :: 0 <= i < |r| ==> '0' <= r[i] <= '9'
    decreases n
  {
    if n < 10 then [DigitChar(n)] else Digits(n / 10) + [DigitChar(n % 10)]
  }

  /** `String(n)` for an integer: its decimal digits, after "-" when it is negative. */
  function Decimal(n: int): string
  {
    if n < 0 then "-" + Digits(-n) else Digits(n)
  }

  /** `String(v)`: an object with a `toString` field of its own throws, because that field is no function. */
  function Text(v: Json): (r: Result<string, Error>)
    ensures r.Failure? ==> r.error == TypeError
    ensures r.Failure? ==> v.JArr? || v.JObj?
    ensures v.JObj? ==> (r.Failure? <==> "toString" in v.fields)
    decreases v, 1
  {
    match v
    case JNull => Success("null")
    case JBool(b) => Success(if b then "true" else "false")
    case JNum(n) => Success(Decimal(n))
    case JStr(s) => Success(s)
    case JArr(items) => JoinTexts(items)
    case JObj(m) => if "toString" in m then Failure(TypeError) else Success("[object Object]")
  }

  /** `items.join(",")`: a null element is written as "", every other as its text. */
  function JoinTexts(items: seq<Json>): (r: Result<string, Error>)
    ensures r.Failure? ==> r.error == TypeError
    decreases items, 0
  {
    if items == [] then Success("")
    else
      var last := items[|items| - 1];
      var lastText := if last == JNull then Success("") else Text(last);
      if |items| == 1 then lastText
      else
        match JoinTexts(items[..|items| - 1])
        case Failure(e) => Failure(e)
        case Success(front) =>
          match lastText
          case Failure(e) => Failure(e)
          case Success(t) => Success(front + "," + t)
  }

  /** `ToNumber(v)` as the `-` and `>` operators apply it: arrays and objects go through their text. */
  function ToNumber(v: Json): (r: Result<Num, Error>)
    ensures r.Failure? ==> r.error == TypeError
    ensures r.Failure? ==> v.JArr? || v.JObj?
  {
    match v
    case JNull => Success(Int(0))
    case JBool(b) => Success(Int(if b then 1 else 0))
    case JNum(n) => Success(Int(n))
    case JStr(s) => Success(StringToNumber(s))
    case _ =>
      match Text(v)
      case Failure(e) => Failure(e)
      case Success(t) => Success(StringToNumber(t))
  }

  lemma {:induction false} DigitsValueOfDigits(n: nat)
    ensures DigitsValue(Digits(n), 10) == Some(n)
    decreases n
  {
    if n >= 10 {
      DigitsValueOfDigits(n / 10);
      var ds := Digits(n);
      assert ds[..|ds| - 1] == Digits(n / 10);
    }
  }

  lemma {:induction false} DigitsValueNone(ds: string, radix: nat, i: nat)
    requires i < |ds| && DigitValue(ds[i], radix).None?
    ensures DigitsValue(ds, radix).None?
    decreases |ds|
  {
    if i < |ds| - 1 {
      DigitsValueNone(ds[..|ds| - 1], radix, i);
    }
  }

  /** A text made only of white space converts to 0. */
  lemma BlankIsZero(s: string)
    requires forall i :: 0 <= i < |s| ==> IsSpace(s[i])
    ensures StringToNumber(s) == Int(0)
  {
    BlankTrimsAway(s);
  }

  lemma {:induction false} BlankTrimsAway(s: string)
    requires forall i :: 0 <= i < |s| ==> IsSpace(s[i])
    ensures TrimStart(s) == []
    decreases |s|
  {
    if s != [] {
      assert IsSpace(s[0]);
      BlankTrimsAway(s[1..]);
    }
  }

  /** A string with no white space at either end is its own trim. */
  lemma TrimmedAlready(s: string)
    requires s != [] && !IsSpace(s[0]) && !IsSpace(s[|s| - 1])
    ensures StringToNumber(s) == LiteralValue(s)
  {
    assert TrimStart(s) == s;
    assert TrimEnd(s) == s;
  }

  /** "-" followed by the digits of m spells -m. */
  lemma MinusLiteral(m: nat, s: string)
    requires m > 0 && |s| >= 2 && s[0] == '-' && s[1..] == Digits(m)
    ensures LiteralValue(s) == Int(0 - m)
  {
    DigitsValueOfDigits(m);
  }

  /** "-" followed by the digits of m is a numeric literal for -m. */
  lemma NegativeLiteral(m: nat, s: string)
    requires m > 0 && s == "-" + Digits(m)
    ensures StringToNumber(s) == Int(0 - m)
  {
    var d := Digits(m);
    assert s[0] == '-' && s[1..] == d && s[|s| - 1] == d[|d| - 1];
    TrimmedAlready(s);
    MinusLiteral(m, s);
  }

  lemma NegativeRoundTrip(n: int)
    requires n < 0
    ensures StringToNumber(Decimal(n)) == Int(n)
  {
    var m: nat := -n;
    var s := "-" + Digits(m);
    NegativeLiteral(m, s);
    assert Decimal(n) == s;
  }

  lemma NonNegativeRoundTrip(n: int)
    requires n >= 0
    ensures StringToNumber(Decimal(n)) == Int(n)
  {
    var s := Decimal(n);
    assert s == Digits(n);
    assert '0' <= s[0] <= '9' && '0' <= s[|s| - 1] <= '9';
    TrimmedAlready(s);
    DigitsLiteral(n, s);
  }

  lemma DigitsLiteral(n: nat, s: string)
    requires s == Digits(n)
    ensures LiteralValue(s) == Int(n)
  {
    DigitsValueOfDigits(n);
    assert s[0] != '-' && s[0] != '+';
    assert |s| > 2 ==> Radix(s[1]).None?;
  }

  /** `String(n)` converts back to n: the decimal rendering of an integer is a numeric literal. */
  lemma DecimalRoundTrip(n: int)
    ensures StringToNumber(Decimal(n)) == Int(n)
  {
    if n < 0 {
      NegativeRoundTrip(n);
    } else {
      NonNegativeRoundTrip(n);
    }
  }

  /** Text holding a comma is never a number. */
  lemma CommaIsNaN(s: string, i: nat)
    requires i < |s| && s[i] == ','
    ensures StringToNumber(s) == NaN
  {
    var u := TrimStart(s);
    var t := TrimEnd(u);
    var j := i - (|s| - |u|);
    assert u[j] == ',';
    assert t[j] == ',';
    if |t| > 2 && t[0] == '0' && Radix(t[1]).Some? {
      DigitsValueNone(t[2..], Radix(t[1]).value, j - 2);
    } else if t[0] == '-' || t[0] == '+' {
      if |t| > 1 {
        DigitsValueNone(t[1..], 10, j - 1);
      }
    } else {
      DigitsValueNone(t, 10, j);
    }
  }

  /** An empty array converts to 0 and an array holding one number to that number. */
  lemma ToNumberShortArray(n: int)
    ensures ToNumber(JArr([])) == Success(Int(0))
    ensures ToNumber(JArr([JNum(n)])) == Success(Int(n))
  {
    assert JoinTexts([]) == Success("");
    assert StringToNumber("") == Int(0) by { BlankIsZero(""); }
    var one := [JNum(n)];
    assert Text(one[0]) == Success(Decimal(n));
    assert JoinTexts(one) == Success(Decimal(n));
    assert Text(JArr(one)) == Success(Decimal(n));
    DecimalRoundTrip(n);
  }

  /** An object converts to NaN, or throws when it has a `toString` field of its own. */
  lemma ToNumberObject(m: map<string, Json>)
    ensures ToNumber(JObj(m)) == if "toString" in m then Failure(TypeError) else Success(NaN)
  {
    if "toString" !in m {
      var t := "[object Object]";
      assert t[0] == '[' && t[|t| - 1] == ']';
      TrimmedAlready(t);
      DigitsValueNone(t, 10, 0);
      assert Text(JObj(m)) == Success(t);
    }
  }

  /** An array of two or more elements joins to a text with a comma: NaN, unless an element throws. */
  lemma ToNumberLongArray(items: seq<Json>)
    requires |items| >= 2
    ensures ToNumber(JArr(items)).Success? ==> ToNumber(JArr(items)) == Success(NaN)
  {
    var r := JoinTexts(items);
    if r.Success? {
      var front := JoinTexts(items[..|items| - 1]).value;
      var last := items[|items| - 1];
      var t := (if last == JNull then Success("") else Text(last)).value;
      assert r.value == front + "," + t;
      assert r.value[|front|] == ',';
      CommaIsNaN(r.value, |front|);
    }
  }
}
