/** The serialized deletion-target payload and the fingerprint taken of it
    (remote_mutation.py, `DeletionTarget.fingerprint`, `identity_facts`).

    The payload is the compact, key-sorted, ASCII-only JSON text that is hashed.  The result proved
    here is that this text determines every identity fact of the target. */
module Fingerprint {

  import opened Targets

  // --- JSON text ---

  datatype Value = Text(text: string) | Number(number: int)

  datatype Field = Field(key: string, value: Value)

  function Digit(d: nat): char
    requires d < 10
  {
    (d + 48) as char
  }

  predicate IsDigit(c: char) {
    '0' <= c <= '9'
  }

  function Decimal(n: nat): (s: string)
    ensures |s| > 0 && forall i :: 0 <= i < |s| ==> IsDigit(s[i])
  {
    if n < 10 then [Digit(n)] else Decimal(n / 10) + [Digit(n % 10)]
  }

  function Integer(n: int): string {
    if n < 0 then "-" + Decimal(-n) else Decimal(n)
  }

  function HexDigit(d: nat): char
    requires d < 16
  {
    (if d < 10 then d + 48 else d + 87) as char
  }

  lemma {:induction false} DigitsAre(d: nat)
    requires d < 16
    ensures HexDigit(d) == "0123456789abcdef"[d] && (d < 10 ==> Digit(d) == "0123456789"[d])
  {
  }

  /** A `\uXXXX` escape. */
  function Unicode(n: nat): (s: string)
    requires n < 0x1_0000
    ensures |s| == 6 && s[0] == '\\' && s[1] == 'u'
  {
    ['\\', 'u', HexDigit(n / 4096), HexDigit(n / 256 % 16), HexDigit(n / 16 % 16), HexDigit(n % 16)]
  }

  /** The escape letter of a character with a two-character escape, if it has one. */
  function Short(c: char): (e: string)
    ensures |e| <= 1 && e != "u"
  {
    if c == '\"' then "\"" else if c == '\\' then "\\" else if c == '\n' then "n" else if c == '\r' then "r"
    else if c == '\t' then "t" else if c == 12 as char then "f" else if c == 8 as char then "b" else ""
  }

  function Escape(c: char): (s: string)
    ensures |s| > 0 && s[0] != '\"'
  {
    var n := c as int;
    if Short(c) != "" then ['\\'] + Short(c)
    else if 0x20 <= n <= 0x7e then [c]
    else if n < 0x1_0000 then Unicode(n)
    else Unicode(0xd800 + (n - 0x1_0000) / 0x400) + Unicode(0xdc00 + (n - 0x1_0000) % 0x400)
  }

  function Quoted(s: string): string {
    if s == "" then "\"" else Escape(s[0]) + Quoted(s[1..])
  }

  function ValueText(v: Value): string {
    match v
    case Text(s) => "\"" + Quoted(s)
    case Number(n) => Integer(n)
  }

  function Member(f: Field): string {
    "\"" + Quoted(f.key) + ":" + ValueText(f.value)
  }

  function Tail(fields: seq<Field>): (s: string)
    ensures |s| > 0 && (s[0] == ',' || s[0] == '}')
  {
    if fields == [] then "}" else "," + Member(fields[0]) + Tail(fields[1..])
  }

  function ObjectText(fields: seq<Field>): string {
    "{" + if fields == [] then "}" else Member(fields[0]) + Tail(fields[1..])
  }

  /** The payload's fields, in sorted key order. */
  function PayloadFields(t: Target): seq<Field> {
    [ Field("account_id", Number(t.accountId)),
      Field("canonical_message_id", Text(t.canonicalId)),
      Field("canonical_sha256", Text(t.canonicalSha256)) ] +
    match t.facts
    case ImapFacts(folder, uidvalidity, uid) =>
      [ Field("folder", Text(folder)),
        Field("format_version", Number(1)),
        Field("provider_kind", Text(t.providerKind)),
        Field("remote_message_id", Text(t.remoteId)),
        Field("uid", Number(uid)),
        Field("uidvalidity", Number(uidvalidity)) ]
    case ProviderFacts(messageId) =>
      [ Field("format_version", Number(1)),
        Field("provider_kind", Text(t.providerKind)),
        Field("provider_message_id", Text(messageId)),
        Field("remote_message_id", Text(t.remoteId)) ]
  }

  function Payload(t: Target): string {
    ObjectText(PayloadFields(t))
  }

  // --- Injectivity ---

  /** Texts whose heads have equal length agree on the heads and on the rest. */
  lemma {:induction false} Split(p: string, q: string, x: string, y: string)
    requires p + x == q + y && |p| == |q|
    ensures p == q && x == y
  {
    assert p == (p + x)[..|p|] && q == (q + y)[..|q|];
    assert x == (p + x)[|p|..] && y == (q + y)[|q|..];
  }

  /** Texts agree on every position that lies in both heads. */
  lemma {:induction false} Position(p: string, q: string, x: string, y: string, i: nat)
    requires p + x == q + y && i < |p| && i < |q|
    ensures p[i] == q[i]
  {
    assert (p + x)[i] == p[i] && (q + y)[i] == q[i];
  }

  lemma {:induction false} Regroup(a: string, b: string, c: string, x: string)
    ensures (a + b) + x == a + (b + x)
    ensures ((a + b) + c) + x == a + (b + (c + x))
  {
  }

  lemma {:induction false} DecimalInjective(n: nat, m: nat)
    requires Decimal(n) == Decimal(m)
    ensures n == m
  {
    var a, b := Decimal(n), Decimal(m);
    assert a[|a| - 1] == b[|b| - 1];
    if n < 10 || m < 10 {
      assert |a| == 1;
    } else {
      assert Decimal(n / 10) == a[..|a| - 1] && Decimal(m / 10) == b[..|b| - 1];
      DecimalInjective(n / 10, m / 10);
    }
  }

  /** A run of digits is delimited by the first character that is not a digit. */
  lemma {:induction false} DigitsDelimited(a: string, b: string, x: string, y: string)
    requires forall i :: 0 <= i < |a| ==> IsDigit(a[i])
    requires forall i :: 0 <= i < |b| ==> IsDigit(b[i])
    requires |x| > 0 && !IsDigit(x[0]) && |y| > 0 && !IsDigit(y[0])
    requires a + x == b + y
    ensures a == b && x == y
  {
    var w := a + x;
    assert w[|a|] == x[0] && w[|b|] == y[0];
    assert forall i :: 0 <= i < |a| ==> w[i] == a[i];
    assert forall i :: 0 <= i < |b| ==> w[i] == b[i];
    assert |a| == |b|;
    Split(a, b, x, y);
  }

  lemma {:induction false} IntegerPrefix(n: int, m: int, x: string, y: string)
    requires |x| > 0 && !IsDigit(x[0]) && |y| > 0 && !IsDigit(y[0])
    requires Integer(n) + x == Integer(m) + y
    ensures n == m && x == y
  {
    var d, e := Decimal(if n < 0 then -n else n), Decimal(if m < 0 then -m else m);
    Position(Integer(n), Integer(m), x, y, 0);
    assert n < 0 <==> m < 0;
    if n < 0 {
      Regroup("-", d, "", x);
      Regroup("-", e, "", y);
      Split("-", "-", d + x, e + y);
    }
    DigitsDelimited(d, e, x, y);
    DecimalInjective(if n < 0 then -n else n, if m < 0 then -m else m);
  }

  lemma {:induction false} HexDigitInjective(d: nat, e: nat)
    requires d < 16 && e < 16
    ensures HexDigit(d) == HexDigit(e) ==> d == e
  {
  }

  lemma {:induction false} FourDigits(n: nat)
    requires n < 0x1_0000
    ensures n == n / 4096 * 4096 + n / 256 % 16 * 256 + n / 16 % 16 * 16 + n % 16
  {
    assert n / 256 == n / 4096 * 16 + n / 256 % 16;
    assert n / 16 == n / 256 * 16 + n / 16 % 16;
  }

  lemma {:induction false} UnicodeInjective(n: nat, m: nat)
    requires n < 0x1_0000 && m < 0x1_0000 && Unicode(n) == Unicode(m)
    ensures n == m
  {
    HexDigitInjective(n / 4096, m / 4096);
    HexDigitInjective(n / 256 % 16, m / 256 % 16);
    HexDigitInjective(n / 16 % 16, m / 16 % 16);
    HexDigitInjective(n % 16, m % 16);
    assert HexDigit(n / 4096) == Unicode(n)[2] && HexDigit(m / 4096) == Unicode(m)[2];
    assert HexDigit(n / 256 % 16) == Unicode(n)[3] && HexDigit(m / 256 % 16) == Unicode(m)[3];
    assert HexDigit(n / 16 % 16) == Unicode(n)[4] && HexDigit(m / 16 % 16) == Unicode(m)[4];
    assert HexDigit(n % 16) == Unicode(n)[5] && HexDigit(m % 16) == Unicode(m)[5];
    FourDigits(n);
    FourDigits(m);
  }

  predicate Long(c: char) {
    Short(c) == "" && !(0x20 <= c as int <= 0x7e)
  }

  /** The code unit written by the first (or only) `\u` escape of a long character. */
  function Lead(c: char): (u: nat)
    requires Long(c)
    ensures u < 0x1_0000
    ensures c as int >= 0x1_0000 <==> 0xd800 <= u < 0xdc00
  {
    var n := c as int;
    if n < 0x1_0000 then n else 0xd800 + (n - 0x1_0000) / 0x400
  }

  function Trail(c: char): (u: nat)
    requires c as int >= 0x1_0000
    ensures u < 0x1_0000
  {
    0xdc00 + (c as int - 0x1_0000) % 0x400
  }

  lemma {:induction false} LongEscape(c: char)
    requires Long(c)
    ensures Escape(c) == if c as int < 0x1_0000 then Unicode(Lead(c)) else Unicode(Lead(c)) + Unicode(Trail(c))
  {
  }

  lemma {:induction false} LeadTrail(c: char, d: char)
    requires Long(c) && Long(d) && Lead(c) == Lead(d)
    requires c as int >= 0x1_0000 ==> d as int >= 0x1_0000 && Trail(c) == Trail(d)
    ensures c == d
  {
  }

  /** Escapes of long characters can be read off: a surrogate pair is never confused with the single
      escape of a character below U+10000, because no character is itself a surrogate. */
  lemma {:induction false} LongEscapePrefix(c: char, d: char, x: string, y: string)
    requires Long(c) && Long(d)
    requires Escape(c) + x == Escape(d) + y
    ensures c == d && x == y
  {
    LongEscape(c);
    LongEscape(d);
    var u, v := Unicode(Lead(c)), Unicode(Lead(d));
    var r := if c as int < 0x1_0000 then "" else Unicode(Trail(c));
    var t := if d as int < 0x1_0000 then "" else Unicode(Trail(d));
    assert Escape(c) == u + r && Escape(d) == v + t;
    Regroup(u, r, "", x);
    Regroup(v, t, "", y);
    Split(u, v, r + x, t + y);
    UnicodeInjective(Lead(c), Lead(d));
    Split(r, t, x, y);
    if c as int >= 0x1_0000 {
      UnicodeInjective(Trail(c), Trail(d));
    }
    LeadTrail(c, d);
  }

  /** No character's escape is a proper prefix of another's. */
  lemma {:induction false} EscapePrefix(c: char, d: char, x: string, y: string)
    requires Escape(c) + x == Escape(d) + y
    ensures c == d && x == y
  {
    Position(Escape(c), Escape(d), x, y, 0);
    if Long(c) && Long(d) {
      LongEscapePrefix(c, d, x, y);
    } else if |Escape(c)| > 1 {
      Position(Escape(c), Escape(d), x, y, 1);
      Split(Escape(c), Escape(d), x, y);
    } else {
      Split(Escape(c), Escape(d), x, y);
    }
  }

  lemma {:induction false} QuotedPrefix(s: string, t: string, x: string, y: string)
    requires Quoted(s) + x == Quoted(t) + y
    ensures s == t && x == y
  {
    Position(Quoted(s), Quoted(t), x, y, 0);
    if s == "" {
      assert t == "";
      Split("\"", "\"", x, y);
    } else {
      assert t != "";
      Regroup(Escape(s[0]), Quoted(s[1..]), "", x);
      Regroup(Escape(t[0]), Quoted(t[1..]), "", y);
      EscapePrefix(s[0], t[0], Quoted(s[1..]) + x, Quoted(t[1..]) + y);
      QuotedPrefix(s[1..], t[1..], x, y);
      assert s == [s[0]] + s[1..] && t == [t[0]] + t[1..];
    }
  }

  predicate Delimiter(x: string) {
    |x| > 0 && (x[0] == ',' || x[0] == '}')
  }

  lemma {:induction false} TextPrefix(s: string, t: string, x: string, y: string)
    requires ("\"" + Quoted(s)) + x == ("\"" + Quoted(t)) + y
    ensures s == t && x == y
  {
    Regroup("\"", Quoted(s), "", x);
    Regroup("\"", Quoted(t), "", y);
    Split("\"", "\"", Quoted(s) + x, Quoted(t) + y);
    QuotedPrefix(s, t, x, y);
  }

  lemma {:induction false} ValuePrefix(v: Value, w: Value, x: string, y: string)
    requires Delimiter(x) && Delimiter(y)
    requires ValueText(v) + x == ValueText(w) + y
    ensures v == w && x == y
  {
    Position(ValueText(v), ValueText(w), x, y, 0);
    match (v, w)
    case (Text(s), Text(t)) => TextPrefix(s, t, x, y);
    case (Number(n), Number(m)) => IntegerPrefix(n, m, x, y);
    case _ => assert false;
  }

  lemma {:induction false} MemberPrefix(f: Field, g: Field, x: string, y: string)
    requires Delimiter(x) && Delimiter(y)
    requires Member(f) + x == Member(g) + y
    ensures f == g && x == y
  {
    var k, l := "\"" + Quoted(f.key), "\"" + Quoted(g.key);
    Regroup(k, ":", ValueText(f.value), x);
    Regroup(l, ":", ValueText(g.value), y);
    TextPrefix(f.key, g.key, ":" + (ValueText(f.value) + x), ":" + (ValueText(g.value) + y));
    Split(":", ":", ValueText(f.value) + x, ValueText(g.value) + y);
    ValuePrefix(f.value, g.value, x, y);
  }

  lemma {:induction false} TailInjective(a: seq<Field>, b: seq<Field>)
    requires Tail(a) == Tail(b)
    ensures a == b
  {
    assert Tail(a)[0] == Tail(b)[0];
    if a != [] && b != [] {
      Regroup(",", Member(a[0]), "", Tail(a[1..]));
      Regroup(",", Member(b[0]), "", Tail(b[1..]));
      Split(",", ",", Member(a[0]) + Tail(a[1..]), Member(b[0]) + Tail(b[1..]));
      MemberPrefix(a[0], b[0], Tail(a[1..]), Tail(b[1..]));
      TailInjective(a[1..], b[1..]);
      assert a == [a[0]] + a[1..] && b == [b[0]] + b[1..];
    }
  }

  /** The serializer loses nothing: equal texts come from equal field lists, whatever characters the
      strings hold and whatever the sign of the numbers. */
  lemma {:induction false} ObjectTextInjective(a: seq<Field>, b: seq<Field>)
    requires ObjectText(a) == ObjectText(b)
    ensures a == b
  {
    var x := if a == [] then "}" else Member(a[0]) + Tail(a[1..]);
    var y := if b == [] then "}" else Member(b[0]) + Tail(b[1..]);
    Split("{", "{", x, y);
    assert x[0] == y[0];
    if a != [] {
      assert b != [];
      MemberPrefix(a[0], b[0], Tail(a[1..]), Tail(b[1..]));
      TailInjective(a[1..], b[1..]);
      assert a == [a[0]] + a[1..] && b == [b[0]] + b[1..];
    }
  }

  lemma {:induction false} PayloadFieldsDecide(a: Target, b: Target)
    requires PayloadFields(a) == PayloadFields(b)
    ensures SameTarget(a, b)
  {
    var f, g := PayloadFields(a), PayloadFields(b);
    assert f[0] == g[0] && f[1] == g[1] && f[2] == g[2] && f[3] == g[3] && f[4] == g[4] && f[5] == g[5] && f[6] == g[6];
    if a.facts.ImapFacts? {
      assert |f| == 9 && f[7] == g[7] && f[8] == g[8];
    } else {
      assert |f| == 7;
    }
  }

  /** Equal fingerprints hold exactly for targets that agree on everything but the display name of
      the account. */
  lemma {:induction false} FingerprintDecides(a: Target, b: Target)
    ensures Payload(a) == Payload(b) <==> SameTarget(a, b)
  {
    if SameTarget(a, b) {
      assert PayloadFields(a) == PayloadFields(b);
    }
    if Payload(a) == Payload(b) {
      ObjectTextInjective(PayloadFields(a), PayloadFields(b));
      PayloadFieldsDecide(a, b);
    }
  }
}
