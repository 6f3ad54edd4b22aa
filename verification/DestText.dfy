/**
 The texts of module DestFormat character by character, from the tables of digits, and what sscanf makes of any
 text.
 */
module DestText {
  import opened DestFormat
  import opened Arithmetic

  const LOWER: string := "0123456789abcdef"
  const UPPER: string := "0123456789ABCDEF"

  lemma DigitTable(d: nat)
    requires d < 16
    ensures Digit(d) == LOWER[d]
    ensures IsHex(LOWER[d]) && DigitValue(LOWER[d]) == d
    ensures IsHex(UPPER[d]) && DigitValue(UPPER[d]) == d
  {
  }

  lemma HexIff(c: char)
    ensures IsHex(c) <==> c in LOWER || c in UPPER
  {
    if IsHex(c) {
      var d := DigitValue(c);
      assert c == LOWER[d] || c == UPPER[d];
    }
  }

  // ---------------------------------------------------------------- printing

  /** The `w` digits of a number, from the table. */
  function Field(n: nat, w: nat): string {
    seq(w, k requires 0 <= k < w => LOWER[n / Pow16(w - 1 - k) % 16])
  }

  /** Two digits for each byte. */
  function Digits(b: seq<Byte>): string {
    seq(2 * |b|, k requires 0 <= k < 2 * |b| => LOWER[if k % 2 == 0 then b[k / 2] / 16 else b[k / 2] % 16])
  }

  lemma DivPow16(n: nat, k: nat)
    ensures n / 16 / Pow16(k) == n / Pow16(k + 1)
  {
    var m := Pow16(k);
    var q, r := n / 16 / m, n / 16 % m;
    assert n / 16 == q * m + r && n == 16 * (n / 16) + n % 16;
    assert n == q * (16 * m) + (16 * r + n % 16);
    DivUnique(16 * m, n, q, 16 * r + n % 16);
  }

  /** A number that fits prints as its digits. */
  lemma {:induction false} PrintIsField(n: nat, w: nat)
    requires n < Pow16(w)
    ensures PrintHex(n, w) == Field(n, w)
    decreases w
  {
    if w > 0 {
      PrintIsField(n / 16, w - 1);
      DigitTable(n % 16);
      assert n / Pow16(0) == n;
      forall k | 0 <= k < w - 1 ensures Field(n, w)[k] == Field(n / 16, w - 1)[k] { DivPow16(n, w - 2 - k); }
    }
  }

  lemma {:induction false} HexBytesAreDigits(b: seq<Byte>)
    ensures HexBytes(b) == Digits(b)
  {
    if b != [] {
      var init := b[..|b| - 1];
      HexBytesAreDigits(init);
      DigitTable(b[|b| - 1] / 16);
      DigitTable(b[|b| - 1] % 16);
      LastDigits(b);
    }
  }

  lemma LastDigits(b: seq<Byte>)
    requires b != []
    ensures Digits(b) == Digits(b[..|b| - 1]) + [LOWER[b[|b| - 1] / 16], LOWER[b[|b| - 1] % 16]]
  {
  }

  /** What is on the wire: 4, 6 and 6 digits with colons, 32 digits in the order of the bytes, a terminator. */
  lemma RecordText(d: Dest)
    requires InRange(d)
    ensures Record(d) == Field(d.lid, 4) + ":" + Field(d.qpn, 6) + ":" + Field(d.psn, 6) + ":" + Digits(d.gid) + "\0"
  {
    assert Pow16(4) == 0x1_0000 by { assert Pow16(2) == 256; }
    assert Pow16(6) == 0x100_0000;
    PrintIsField(d.lid, 4);
    PrintIsField(d.qpn, 6);
    PrintIsField(d.psn, 6);
    HexBytesAreDigits(d.gid);
  }

  // ---------------------------------------------------------------- scanning a number

  /** The white space of the C locale. */
  lemma SpaceIff(c: char)
    ensures IsSpace(c) <==> c == ' ' || 9 <= c as int <= 13
  {
  }

  predicate Spaces(s: string) { forall i :: 0 <= i < |s| ==> IsSpace(s[i]) }

  predicate IsPrefix(s: string) { s == "0x" || s == "0X" }

  /** How "%x" reads a text: white space, a sign, a prefix, digits, and a rest that does not go on with a digit. */
  ghost predicate Reads(s: string, space: string, sign: string, prefix: string, digits: string, rest: string) {
    && s == space + (sign + (prefix + (digits + rest)))
    && Spaces(space) && (sign == "" || sign == "+" || sign == "-") && (prefix == "" || IsPrefix(prefix))
    && Hex(digits) && (rest == "" || !IsHex(rest[0]))
    && (prefix == "" ==> !(digits == "0" && rest != "" && (rest[0] == 'x' || rest[0] == 'X')))
  }

  /** The number modulo 2^32, unless it does not fit 64 bits. */
  function Stored32(sign: string, n: nat): int {
    if n >= 0x1_0000_0000_0000_0000 then 0xffff_ffff
    else if sign == "-" then (-(n as int)) % 0x1_0000_0000 else n % 0x1_0000_0000
  }

  lemma {:induction false} SpacesSkipped(space: string, t: string)
    requires Spaces(space) && (t == "" || !IsSpace(t[0]))
    ensures SkipSpace(space + t) == t
  {
    if space == "" {
      assert space + t == t;
    } else {
      assert (space + t)[1..] == space[1..] + t;
      SpacesSkipped(space[1..], t);
    }
  }

  lemma PrefixSkipped(prefix: string, digits: string, rest: string)
    requires Hex(digits) && (prefix == "" || IsPrefix(prefix))
    requires prefix == "" ==> !(digits == "0" && rest != "" && (rest[0] == 'x' || rest[0] == 'X'))
    ensures SkipPrefix(prefix + (digits + rest)) == digits + rest
  {
    var v := digits + rest;
    if prefix == "" {
      assert prefix + v == v && v[0] == digits[0];
      if |digits| >= 2 { assert v[1] == digits[1] && IsHex(v[1]); }
    } else {
      assert (prefix + v)[2..] == v && (prefix + v)[0] == prefix[0] && (prefix + v)[1] == prefix[1];
    }
  }

  lemma PrefixedStart(prefix: string, digits: string, rest: string)
    requires Hex(digits) && (prefix == "" || IsPrefix(prefix))
    ensures prefix + (digits + rest) != "" && IsHex((prefix + (digits + rest))[0])
  {
    var v := digits + rest;
    assert v[0] == digits[0];
    if prefix == "" { assert prefix + v == v; } else { assert (prefix + v)[0] == prefix[0]; }
  }

  /** What follows the sign starts with a digit. */
  lemma SignSkipped(sign: string, t: string)
    requires (sign == "" || sign == "+" || sign == "-") && t != "" && IsHex(t[0])
    ensures SkipSign(sign + t) == t && sign + t != "" && !IsSpace((sign + t)[0])
    ensures (sign + t)[0] == '-' <==> sign == "-"
  {
    if sign == "" { assert sign + t == t; } else { assert (sign + t)[1..] == t; }
  }

  /** Every text that can be read is read, with the value that its digits stand for. */
  lemma ReadsIsScanned(s: string, space: string, sign: string, prefix: string, digits: string, rest: string)
    requires Reads(s, space, sign, prefix, digits, rest)
    ensures Hex(digits) && ScanHex(s) == Some((Cut32(sign == "-", Value(digits)), rest))
  {
    var t := prefix + (digits + rest);
    PrefixSkipped(prefix, digits, rest);
    PrefixedStart(prefix, digits, rest);
    SignSkipped(sign, t);
    SpacesSkipped(space, sign + t);
    TakesDigits(sign == "-", digits, rest);
  }

  lemma CutIsStored(sign: string, n: nat)
    ensures Cut32(sign == "-", n) == Stored32(sign, n)
  {
  }

  lemma {:induction false} SpacesBefore(s: string) returns (k: nat)
    ensures k <= |s| && SkipSpace(s) == s[k..] && forall i :: 0 <= i < k ==> IsSpace(s[i])
  {
    k := 0;
    if s != "" && IsSpace(s[0]) {
      var more := SpacesBefore(s[1..]);
      k := more + 1;
      assert s[1..][more..] == s[k..];
      forall i | 0 <= i < k ensures IsSpace(s[i]) { assert i > 0 ==> s[i] == s[1..][i - 1]; }
    }
  }

  lemma DigitsTaken(negative: bool, v: string) returns (digits: string, rest: string)
    requires TakeDigits(negative, v).Some?
    ensures v == digits + rest && Hex(digits) && (rest == "" || !IsHex(rest[0]))
  {
    digits, rest := v[..HexPrefix(v)], v[HexPrefix(v)..];
  }

  lemma SignBefore(t: string) returns (sign: string)
    ensures t == sign + SkipSign(t) && (sign == "" || sign == "+" || sign == "-")
  {
    sign := if t != "" && (t[0] == '-' || t[0] == '+') then [t[0]] else "";
    assert t == sign + SkipSign(t);
  }

  lemma PrefixBefore(u: string) returns (prefix: string)
    ensures u == prefix + SkipPrefix(u) && (prefix == "" ==> !Prefixed(u)) && (prefix == "" || IsPrefix(prefix))
  {
    prefix := if Prefixed(u) then u[..2] else "";
    assert u == prefix + SkipPrefix(u);
  }

  lemma UnsignedReads(negative: bool, u: string) returns (prefix: string, digits: string, rest: string)
    requires TakeDigits(negative, SkipPrefix(u)).Some?
    ensures Reads(u, "", "", prefix, digits, rest)
  {
    prefix := PrefixBefore(u);
    digits, rest := DigitsTaken(negative, SkipPrefix(u));
    NotPrefixed(u, prefix, digits, rest);
    assert "" + ("" + u) == u;
  }

  lemma ReadsOn(s: string, space: string, sign: string, u: string, prefix: string, digits: string, rest: string)
    requires Reads(u, "", "", prefix, digits, rest) && s == space + (sign + u)
    requires Spaces(space) && (sign == "" || sign == "+" || sign == "-")
    ensures Reads(s, space, sign, prefix, digits, rest)
  {
    assert u == prefix + (digits + rest);
  }

  lemma SpaceAndSign(s: string) returns (space: string, sign: string, u: string)
    ensures s == space + (sign + u) && u == SkipSign(SkipSpace(s))
    ensures Spaces(space) && (sign == "" || sign == "+" || sign == "-")
  {
    var k := SpacesBefore(s);
    space := s[..k];
    sign := SignBefore(s[k..]);
    u := SkipSign(s[k..]);
    assert s == space + s[k..];
  }

  lemma DigitsFound(s: string)
    requires ScanHex(s).Some?
    ensures exists negative :: TakeDigits(negative, SkipPrefix(SkipSign(SkipSpace(s)))).Some?
  {
  }

  /** Nothing else is read. */
  lemma ScannedReads(s: string)
    returns (space: string, sign: string, prefix: string, digits: string, rest: string)
    requires ScanHex(s).Some?
    ensures Reads(s, space, sign, prefix, digits, rest)
  {
    DigitsFound(s);
    var u;
    space, sign, u := SpaceAndSign(s);
    var negative :| TakeDigits(negative, SkipPrefix(u)).Some?;
    prefix, digits, rest := UnsignedReads(negative, u);
    ReadsOn(s, space, sign, u, prefix, digits, rest);
  }

  lemma NotPrefixed(u: string, prefix: string, digits: string, rest: string)
    requires u == prefix + (digits + rest) && (prefix == "" ==> !Prefixed(u))
    ensures prefix == "" ==> !(digits == "0" && rest != "" && (rest[0] == 'x' || rest[0] == 'X'))
  {
    if prefix == "" && digits == "0" && rest != "" { assert u[0] == '0' && u[1] == rest[0]; }
  }

  ghost predicate ReadAs(s: string, n: Word32, rest: string) {
    exists space, sign, prefix, digits ::
      Reads(s, space, sign, prefix, digits, rest) && n == Stored32(sign, Value(digits))
  }

  /** A number is scanned from a text if and only if the text can be read so, and it is the one stored. */
  lemma ScanHexIff(s: string, n: Word32, rest: string)
    ensures ScanHex(s) == Some((n, rest)) <==> ReadAs(s, n, rest)
  {
    if ScanHex(s) == Some((n, rest)) {
      var space, sign, prefix, digits, rest' := ScannedReads(s);
      ReadsIsScanned(s, space, sign, prefix, digits, rest');
      CutIsStored(sign, Value(digits));
      assert Reads(s, space, sign, prefix, digits, rest);
    } else if ReadAs(s, n, rest) {
      var space, sign, prefix, digits :|
        Reads(s, space, sign, prefix, digits, rest) && n == Stored32(sign, Value(digits));
      ReadsIsScanned(s, space, sign, prefix, digits, rest);
      CutIsStored(sign, Value(digits));
    }
  }

  /** The value of digits of either case, from the tables. */
  lemma {:induction false} ValueOfDigits(s: string, ds: seq<nat>)
    requires |s| == |ds| && forall i :: 0 <= i < |s| ==> ds[i] < 16 && (s[i] == LOWER[ds[i]] || s[i] == UPPER[ds[i]])
    ensures forall i :: 0 <= i < |s| ==> IsHex(s[i])
    ensures Value(s) == Weighted(ds)
  {
    forall i | 0 <= i < |s| ensures IsHex(s[i]) { DigitTable(ds[i]); }
    if s != "" {
      ValueOfDigits(s[..|s| - 1], ds[..|ds| - 1]);
      DigitTable(ds[|ds| - 1]);
      WeightedSnoc(ds);
    }
  }

  /** The first digit counts most. */
  function Weighted(ds: seq<nat>): nat {
    if ds == [] then 0 else ds[0] * Pow16(|ds| - 1) + Weighted(ds[1..])
  }

  lemma {:induction false} WeightedSnoc(ds: seq<nat>)
    requires ds != []
    ensures Weighted(ds) == 16 * Weighted(ds[..|ds| - 1]) + ds[|ds| - 1]
  {
    var init := ds[..|ds| - 1];
    if |ds| == 1 {
      assert Pow16(0) == 1 && ds[1..] == [];
    } else {
      assert ds[1..][..|ds| - 2] == init[1..];
      WeightedSnoc(ds[1..]);
      assert ds[0] * Pow16(|ds| - 1) == 16 * (ds[0] * Pow16(|ds| - 2));
    }
  }

  // ---------------------------------------------------------------- scanning a record that goes wrong

  /** What makes sscanf stop after a number: no colon, or no number after it. */
  predicate Stops(tail: string) { Ends(tail) && (tail == "" || tail[0] != ':' || ScanHex(tail[1..]) == None) }

  /** The numbers before the place where the text goes wrong are stored, and nothing else. */
  lemma StopsEarly(a: Word32, b: Word32, tail: string, d: Scanned)
    ensures ScanHex(tail) == None ==> ScanDest(tail, d) == d
    ensures Stops(tail) ==> ScanDest(PrintHex(a, 4) + tail, d) == d.(lid := a)
    ensures Stops(tail) ==> ScanDest(PrintHex(a, 4) + (":" + (PrintHex(b, 6) + tail)), d) == d.(lid := a, qpn := b)
  {
    if Stops(tail) {
      StopsAfterOne(a, tail, d);
      FieldBack(a, 4, PrintHex(b, 6) + tail);
      StopsAfterTwo(b, tail, d.(lid := a));
    }
  }

  lemma StopsAfterOne(a: Word32, tail: string, d: Scanned)
    requires Stops(tail)
    ensures ScanDest(PrintHex(a, 4) + tail, d) == d.(lid := a)
  {
    ScanPrinted(a, 4, tail);
  }

  lemma StopsAfterTwo(b: Word32, tail: string, d: Scanned)
    requires Stops(tail)
    ensures ScanNumbers(PrintHex(b, 6) + tail, d) == d.(qpn := b)
  {
    ScanPrinted(b, 6, tail);
  }

  /** With three numbers and no GID text, the numbers are stored; with a text, it is the characters up to white space. */
  lemma ThreeNumbers(a: Word32, b: Word32, c: Word32, space: string, word: string, rest: string, d: Scanned)
    requires Spaces(space) && (forall i :: 0 <= i < |word| ==> word[i] != '\0' && !IsSpace(word[i]))
    requires rest == "" || rest[0] == '\0' || (word != "" && IsSpace(rest[0]))
    requires d.gidText == None
    ensures var text := PrintHex(a, 4) + (":" + (PrintHex(b, 6) + (":" + (PrintHex(c, 6) + (":" + (space + (word + rest)))))));
      ScanDest(text, d) == Scanned(a, b, c, if word == "" then None else Some(word))
  {
    var s3 := space + (word + rest);
    var s2 := PrintHex(c, 6) + (":" + s3);
    FieldBack(a, 4, PrintHex(b, 6) + (":" + s2));
    FieldBack(b, 6, s2);
    FieldBack(c, 6, s3);
    SpacesSkipped(space, word + rest);
    WordIs(word, rest);
  }

  lemma {:induction false} WordIs(word: string, rest: string)
    requires forall i :: 0 <= i < |word| ==> word[i] != '\0' && !IsSpace(word[i])
    requires rest == "" || rest[0] == '\0' || IsSpace(rest[0])
    ensures Word(word + rest) == word
  {
    if word == "" {
      assert word + rest == rest;
    } else {
      assert (word + rest)[1..] == word[1..] + rest;
      WordIs(word[1..], rest);
    }
  }
}
