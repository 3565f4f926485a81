/** The text under which the session stores its user profile. The source
    uses `JSON.stringify` and `JSON.parse`; this module stands in for them
    with a small self-delimiting encoding and proves the one property the
    session relies on: parsing what was serialized gives the user back. */
module UserCodec {
  import opened Js
  import opened Api

  /** Every character is written after a `+`, and `;` closes the text, so
      the encoding delimits itself whatever characters the text holds. */
  function EncodeText(s: string): (e: string)
    ensures |e| == 2 * |s| + 1
    ensures e[|e| - 1] == ';'
  {
    if s == [] then ";" else ['+', s[0]] + EncodeText(s[1..])
  }

  /** Reads one encoded text off the front of `e`; yields it with the rest. */
  function DecodeText(e: string): Option<(string, string)>
    decreases |e|
  {
    if |e| == 0 then None
    else if e[0] == ';' then Some(("", e[1..]))
    else if e[0] == '+' && |e| >= 2 then
      match DecodeText(e[2..])
      case None => None
      case Some(d) => Some(([e[1]] + d.0, d.1))
    else None
  }

  lemma {:induction false} DecodeEncodeText(s: string, rest: string)
    ensures DecodeText(EncodeText(s) + rest) == Some((s, rest))
    decreases |s|
  {
    var e := EncodeText(s) + rest;
    if s == [] {
      assert e == [';'] + rest;
      assert e[1..] == rest;
    } else {
      assert e == ['+', s[0]] + (EncodeText(s[1..]) + rest);
      assert e[2..] == EncodeText(s[1..]) + rest;
      DecodeEncodeText(s[1..], rest);
      assert [s[0]] + s[1..] == s;
    }
  }

  predicate IsDigit(c: char) {
    '0' <= c <= '9'
  }

  function DigitChar(k: nat): (c: char)
    requires k < 10
    ensures IsDigit(c)
  {
    ('0' as int + k) as char
  }

  /** The decimal digits of `n`, most significant first. */
  function Digits(n: nat): (d: string)
    ensures |d| > 0
    ensures forall i :: 0 <= i < |d| ==> IsDigit(d[i])
  {
    if n < 10 then [DigitChar(n)] else Digits(n / 10) + [DigitChar(n % 10)]
  }

  /** The number a string of decimal digits denotes. */
  function Value(d: string): nat
    requires forall i :: 0 <= i < |d| ==> IsDigit(d[i])
  {
    if |d| == 0 then 0
    else
      assert IsDigit(d[|d| - 1]);
      Value(d[..|d| - 1]) * 10 + (d[|d| - 1] as int - '0' as int)
  }

  lemma {:induction false} ValueOfDigits(n: nat)
    ensures Value(Digits(n)) == n
  {
    if n >= 10 {
      var d := Digits(n);
      assert d[..|d| - 1] == Digits(n / 10);
      ValueOfDigits(n / 10);
    }
  }

  function EncodeId(id: Option<int>): string {
    match id
    case None => "~"
    case Some(i) => if i < 0 then "-" + EncodeText(Digits(-i)) else "=" + EncodeText(Digits(i))
  }

  function DecodeId(e: string): Option<(Option<int>, string)> {
    if |e| == 0 then None
    else if e[0] == '~' then Some((None, e[1..]))
    else if e[0] == '-' || e[0] == '=' then
      match DecodeText(e[1..])
      case None => None
      case Some(d) =>
        if |d.0| > 0 && forall i :: 0 <= i < |d.0| ==> IsDigit(d.0[i]) then
          var n: int := Value(d.0);
          var i: int := if e[0] == '-' then -n else n;
          Some((Some(i), d.1))
        else None
    else None
  }

  lemma DecodeEncodeId(id: Option<int>, rest: string)
    ensures DecodeId(EncodeId(id) + rest) == Some((id, rest))
  {
    match id
    case None =>
      assert (EncodeId(id) + rest)[1..] == rest;
    case Some(i) =>
      var n: nat := if i < 0 then -i else i;
      var e := EncodeId(id) + rest;
      assert e[1..] == EncodeText(Digits(n)) + rest;
      DecodeEncodeText(Digits(n), rest);
      ValueOfDigits(n);
  }

  function EncodeField(v: Option<string>): string {
    match v
    case None => "~"
    case Some(s) => "=" + EncodeText(s)
  }

  function DecodeField(e: string): Option<(Option<string>, string)> {
    if |e| == 0 then None
    else if e[0] == '~' then Some((None, e[1..]))
    else if e[0] == '=' then
      match DecodeText(e[1..])
      case None => None
      case Some(d) => Some((Some(d.0), d.1))
    else None
  }

  lemma DecodeEncodeField(v: Option<string>, rest: string)
    ensures DecodeField(EncodeField(v) + rest) == Some((v, rest))
  {
    match v
    case None =>
      assert (EncodeField(v) + rest)[1..] == rest;
    case Some(s) =>
      assert (EncodeField(v) + rest)[1..] == EncodeText(s) + rest;
      DecodeEncodeText(s, rest);
  }

  /** Stands in for `JSON.stringify(user)`. */
  function Serialize(u: User): (s: string)
    ensures s != ""
  {
    EncodeId(u.id) + EncodeField(u.nombre) + EncodeField(u.correo)
  }

  /** What `JSON.parse(text)` yields for a stored user text: it throws, it
      reads the literal `null`, or it reads a user. */
  datatype Parsed = Throws | NullValue | UserValue(user: User)

  /** Stands in for `JSON.parse(text)`. The text `null` parses to `null`,
      and a text this encoding cannot read throws. Which texts those are is
      the encoding's choice, not JSON's: only `null` and what `Serialize`
      writes are read as `JSON.parse` would read them. */
  function Parse(s: string): (r: Parsed)
    ensures r == NullValue <==> s == "null"
  {
    if s == "null" then NullValue
    else
      match DecodeId(s)
      case None => Throws
      case Some(a) =>
        match DecodeField(a.1)
        case None => Throws
        case Some(b) =>
          match DecodeField(b.1)
          case None => Throws
          case Some(c) => if c.1 == "" then UserValue(User(a.0, b.0, c.0)) else Throws
  }

  /** Parsing a serialized user gives that user back. */
  lemma ParseSerialize(u: User)
    ensures Parse(Serialize(u)) == UserValue(u)
  {
    assert Serialize(u)[0] != 'n';
    var c := EncodeField(u.correo);
    var b := EncodeField(u.nombre) + c;
    assert Serialize(u) == EncodeId(u.id) + b;
    DecodeEncodeId(u.id, b);
    DecodeEncodeField(u.nombre, c);
    assert c == c + "";
    DecodeEncodeField(u.correo, "");
  }
}
