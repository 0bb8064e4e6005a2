/** The standard base64 encoding (section 4 of RFC 4648), decoded as leniently as the tokens are: line
    breaks are skipped, and unused trailing bits need not be zero. */
module Base64 {
  import opened Options

  type Byte = b: int | 0 <= b < 256
  type Bytes = seq<Byte>
  type Sextet = v: int | 0 <= v < 64

  function Symbol(v: Sextet): char {
    if v < 26 then 'A' + v as char
    else if v < 52 then 'a' + (v - 26) as char
    else if v < 62 then '0' + (v - 52) as char
    else if v == 62 then '+' else '/'
  }

  function Value(c: char): Option<Sextet> {
    if 'A' <= c <= 'Z' then Some((c - 'A') as int)
    else if 'a' <= c <= 'z' then Some((c - 'a') as int + 26)
    else if '0' <= c <= '9' then Some((c - '0') as int + 52)
    else if c == '+' then Some(62)
    else if c == '/' then Some(63)
    else None
  }

  const UPPER := "ABCDEFGHIJKLMNOPQRSTUVWXYZ"
  const LOWER := "abcdefghijklmnopqrstuvwxyz"
  const DIGITS := "0123456789"

  /** The alphabet is that of table 1 of RFC 4648. */
  lemma SymbolsAreTheAlphabet(v: Sextet)
    ensures Symbol(v) == (UPPER + LOWER + DIGITS + "+/")[v]
  {
    if v < 26 {
      UpperAt(v);
    } else if v < 52 {
      LowerAt(v - 26);
    } else if v < 62 {
      DigitAt(v - 52);
    }
  }

  lemma UpperAt(v: nat)
    requires v < 26
    ensures |UPPER| == 26 && UPPER[v] as int == 65 + v
  {
  }

  lemma LowerAt(v: nat)
    requires v < 26
    ensures |LOWER| == 26 && LOWER[v] as int == 97 + v
  {
  }

  lemma DigitAt(v: nat)
    requires v < 10
    ensures |DIGITS| == 10 && DIGITS[v] as int == 48 + v
  {
  }

  /** Symbols and values correspond one to one. */
  lemma SymbolsAreValues()
    ensures forall v: Sextet :: Value(Symbol(v)) == Some(v)
    ensures forall c :: Value(c).Some? ==> Symbol(Value(c).value) == c
    ensures Value('=').None? && Value('.').None? && Value('\n').None? && Value('\r').None?
  {
    forall c | Value(c).Some? ensures Symbol(Value(c).value) == c {
      assert ('a' <= c <= 'z') || ('A' <= c <= 'Z') || ('0' <= c <= '9') || c == '+' || c == '/';
    }
  }

  /** The four symbols of a group of one to three bytes. */
  function EncodeGroup(b: Bytes): string
    requires 1 <= |b| <= 3
  {
    var b1, b2 := if |b| > 1 then b[1] else 0, if |b| > 2 then b[2] else 0;
    [Symbol(b[0] / 4), Symbol(b[0] % 4 * 16 + b1 / 16),
     if |b| > 1 then Symbol(b1 % 16 * 4 + b2 / 64) else '=',
     if |b| > 2 then Symbol(b2 % 64) else '=']
  }

  /** `base64.StdEncoding.EncodeToString`. */
  function Encode(b: Bytes): string {
    if b == [] then ""
    else if |b| <= 3 then EncodeGroup(b)
    else EncodeGroup(b[..3]) + Encode(b[3..])
  }

  /** The bytes of the first four symbols: three, or fewer when padding ends the text; None if they are
      not a group, or padding does not end the text. */
  function Group(s: string): (r: Option<Bytes>)
    requires |s| >= 4
    ensures r.Some? ==> 1 <= |r.value| <= 3 && (|r.value| < 3 ==> |s| == 4)
  {
    var v0, v1, v2, v3 := Value(s[0]), Value(s[1]), Value(s[2]), Value(s[3]);
    if v0.None? || v1.None? then None
    else
      var first: Byte := v0.value * 4 + v1.value / 16;
      if s[2] == '=' then
        if s[3] == '=' && |s| == 4 then Some([first]) else None
      else if v2.None? then None
      else
        var second: Byte := v1.value % 16 * 16 + v2.value / 4;
        if s[3] == '=' then
          if |s| == 4 then Some([first, second]) else None
        else if v3.None? then None
        else Some([first, second, v2.value % 4 * 64 + v3.value])
  }

  function Decode(s: string): Option<Bytes> {
    if s == "" then Some([])
    else if |s| < 4 then None
    else
      var group, rest := Group(s), Decode(s[4..]);
      if group.None? || rest.None? then None else Some(group.value + rest.value)
  }

  function WithoutBreaks(s: string): string {
    if s == "" then ""
    else if s[0] == '\n' || s[0] == '\r' then WithoutBreaks(s[1..])
    else [s[0]] + WithoutBreaks(s[1..])
  }

  /** `base64.StdEncoding.DecodeString`. */
  function DecodeString(s: string): Option<Bytes> {
    Decode(WithoutBreaks(s))
  }

  // ---------- the encoding ----------

  function ValueOf(c: char): int {
    if Value(c).Some? then Value(c).value else 0
  }

  /** A group holds the bits of its bytes, most significant first, with zeros behind them and padding for
      the missing bytes (section 4 of RFC 4648). */
  lemma GroupHoldsBits(b: Bytes)
    requires 1 <= |b| <= 3
    ensures var g, b1, b2 := EncodeGroup(b), if |b| > 1 then b[1] else 0, if |b| > 2 then b[2] else 0;
      && |g| == 4 && (g[2] == '=' <==> |b| == 1) && (g[3] == '=' <==> |b| < 3)
      && ValueOf(g[0]) * 0x40000 + ValueOf(g[1]) * 0x1000 + ValueOf(g[2]) * 0x40 + ValueOf(g[3])
         == b[0] as int * 0x10000 + b1 as int * 0x100 + b2 as int
  {
    hide Symbol, Value;
    SymbolsAreValues();
    assert forall v: Sextet :: Symbol(v) != '=';
  }

  /** Groups are encoded one after the other. */
  lemma {:induction false} GroupsFollow(a: Bytes, b: Bytes)
    requires |a| % 3 == 0
    ensures Encode(a + b) == Encode(a) + Encode(b)
    decreases a
  {
    hide EncodeGroup;
    if a == [] {
      assert a + b == b;
    } else if b == [] {
      assert a + b == a;
    } else {
      GroupsFollow(a[3..], b);
      assert (a + b)[..3] == a[..3] && (a + b)[3..] == a[3..] + b;
      FirstGroup(a + b);
      FirstGroup(a);
    }
  }

  lemma FirstGroup(b: Bytes)
    requires |b| >= 3
    ensures Encode(b) == EncodeGroup(b[..3]) + Encode(b[3..])
  {
    if |b| == 3 {
      assert b[..3] == b && b[3..] == [];
    }
  }

  // ---------- round trip ----------

  predicate InAlphabet(c: char) {
    Value(c).Some? || c == '='
  }

  lemma {:induction false} EncodeAlphabet(b: Bytes)
    ensures forall i :: 0 <= i < |Encode(b)| ==> InAlphabet(Encode(b)[i])
    ensures |b| > 0 ==> |Encode(b)| >= 4
    decreases b
  {
    hide Symbol, Value;
    SymbolsAreValues();
    if |b| > 3 {
      EncodeAlphabet(b[3..]);
    }
  }

  lemma {:induction false} NoBreaks(s: string)
    requires forall i :: 0 <= i < |s| ==> InAlphabet(s[i])
    ensures WithoutBreaks(s) == s
    decreases s
  {
    if s != "" {
      assert InAlphabet(s[0]);
      NoBreaks(s[1..]);
    }
  }

  /** Splitting three bytes into four sextets loses nothing, nor does joining them. */
  lemma Regroup(b0: Byte, b1: Byte, b2: Byte)
    ensures b0 / 4 * 4 + (b0 % 4 * 16 + b1 / 16) / 16 == b0
    ensures (b0 % 4 * 16 + b1 / 16) % 16 * 16 + (b1 % 16 * 4 + b2 / 64) / 4 == b1
    ensures (b1 % 16 * 4 + b2 / 64) % 4 * 64 + b2 % 64 == b2
  {
  }

  lemma Ungroup(v0: Sextet, v1: Sextet, v2: Sextet, v3: Sextet)
    ensures var b0, b1, b2 := v0 * 4 + v1 / 16, v1 % 16 * 16 + v2 / 4, v2 % 4 * 64 + v3;
      b0 / 4 == v0 && b0 % 4 * 16 + b1 / 16 == v1 && b1 % 16 * 4 + b2 / 64 == v2 && b2 % 64 == v3
    ensures v1 % 16 == 0 ==> (v0 * 4 + v1 / 16) % 4 * 16 == v1
    ensures v2 % 4 == 0 ==> (v1 % 16 * 16 + v2 / 4) % 16 * 4 == v2
  {
  }

  lemma GroupUndoes(b: Bytes, tail: string)
    requires 1 <= |b| <= 3 && (|b| < 3 ==> tail == "")
    ensures Group(EncodeGroup(b) + tail) == Some(b)
  {
    hide Symbol, Value;
    SymbolsAreValues();
    assert forall v: Sextet :: Symbol(v) != '=';
    if |b| == 1 {
      assert b == [b[0]];
    } else if |b| == 2 {
      assert b == [b[0], b[1]];
    } else {
      assert b == [b[0], b[1], b[2]];
    }
    Regroup(b[0], if |b| > 1 then b[1] else 0, if |b| > 2 then b[2] else 0);
  }

  lemma {:induction false} DecodeUndoesEncode(b: Bytes)
    ensures Decode(Encode(b)) == Some(b)
    decreases b
  {
    hide Group, EncodeGroup;
    if 1 <= |b| <= 3 {
      GroupUndoes(b, "");
      EncodeGroupLength(b);
      assert EncodeGroup(b) + "" == EncodeGroup(b);
      assert Encode(b)[4..] == "" && b + [] == b;
    } else if |b| > 3 {
      var head, rest := b[..3], b[3..];
      assert b == head + rest;
      DecodeUndoesEncode(rest);
      GroupUndoes(head, Encode(rest));
      EncodeGroupLength(head);
      assert Encode(b)[4..] == Encode(rest);
    }
  }

  lemma EncodeGroupLength(b: Bytes)
    requires 1 <= |b| <= 3
    ensures |EncodeGroup(b)| == 4
  {
  }

  /** Decoding undoes encoding, and no encoding contains a dot. */
  lemma {:induction false} RoundTrip(b: Bytes)
    ensures DecodeString(Encode(b)) == Some(b)
    ensures forall i :: 0 <= i < |Encode(b)| ==> InAlphabet(Encode(b)[i])
    ensures '.' !in Encode(b)
  {
    hide Encode, Decode;
    EncodeAlphabet(b);
    NoBreaks(Encode(b));
    DecodeUndoesEncode(b);
  }

  // ---------- what else decodes ----------

  /** The bits of the last symbol that carry no data are zero. */
  predicate Canonical(s: string) {
    |s| >= 4 ==> CanonicalGroup(s[|s| - 4..])
  }

  predicate CanonicalGroup(s: string)
    requires |s| == 4
  {
    if s[2] == '=' then Value(s[1]).Some? ==> Value(s[1]).value % 16 == 0
    else s[3] == '=' && Value(s[2]).Some? ==> Value(s[2]).value % 4 == 0
  }

  lemma GroupRedoes(s: string)
    requires |s| >= 4 && Group(s).Some? && (|s| == 4 ==> CanonicalGroup(s))
    ensures EncodeGroup(Group(s).value) == s[..4]
  {
    hide Symbol, Value;
    SymbolsAreValues();
    var v0, v1, v2, v3 := Value(s[0]), Value(s[1]), Value(s[2]), Value(s[3]);
    Ungroup(v0.value, v1.value, if v2.Some? then v2.value else 0, if v3.Some? then v3.value else 0);
  }

  lemma {:induction false} EncodeUndoesDecode(s: string)
    requires Decode(s).Some? && Canonical(s)
    ensures Encode(Decode(s).value) == s
    decreases s
  {
    hide Group, EncodeGroup, CanonicalGroup;
    if s != "" {
      var group, rest := Group(s).value, Decode(s[4..]).value;
      GroupRedoes(s);
      assert s == s[..4] + s[4..];
      if |group| == 3 {
        EncodeUndoesDecode(s[4..]);
        assert (group + rest)[..3] == group && (group + rest)[3..] == rest;
        DecodesToSomething(s[4..]);
        assert rest == [] ==> group + rest == group;
      } else {
        assert s[4..] == "" && group + rest == group;
      }
    }
  }

  lemma DecodesToSomething(s: string)
    requires Decode(s).Some?
    ensures Decode(s).value == [] <==> s == ""
  {
  }

  lemma {:induction false} EncodeIsCanonical(b: Bytes)
    ensures Canonical(Encode(b))
    decreases b
  {
    hide EncodeGroup, CanonicalGroup;
    if 1 <= |b| <= 3 {
      EncodeGroupIsCanonical(b);
      assert EncodeGroup(b)[0..] == EncodeGroup(b);
    } else if |b| > 3 {
      EncodeIsCanonical(b[3..]);
      EncodeAlphabet(b[3..]);
      EncodeGroupLength(b[..3]);
      var tail := Encode(b[3..]);
      assert Encode(b)[|Encode(b)| - 4..] == tail[|tail| - 4..];
    }
  }

  lemma EncodeGroupIsCanonical(b: Bytes)
    requires 1 <= |b| <= 3
    ensures |EncodeGroup(b)| == 4 && CanonicalGroup(EncodeGroup(b))
  {
    hide Symbol, Value;
    SymbolsAreValues();
  }

  /** A text decodes to given bytes, with no stray bits, exactly when it is their encoding with line
      breaks put in. */
  lemma {:induction false} DecodesExactly(s: string, b: Bytes)
    ensures DecodeString(s) == Some(b) && Canonical(WithoutBreaks(s)) <==> WithoutBreaks(s) == Encode(b)
  {
    hide Encode, Decode, Canonical;
    if DecodeString(s) == Some(b) && Canonical(WithoutBreaks(s)) {
      EncodeUndoesDecode(WithoutBreaks(s));
    }
    if WithoutBreaks(s) == Encode(b) {
      DecodeUndoesEncode(b);
      EncodeIsCanonical(b);
    }
  }
}
