/** Bech32, Bech32m, Blech32 and Blech32m strings. */
module Bech32s {
  import opened Options
  import opened Checksums

  // ---------- characters ----------

  /** The character of a symbol. */
  function CharOf(v: bv64): char
    requires v < 32
  {
    if v < 8 then (if v == 0 then 'q' else if v == 1 then 'p' else if v == 2 then 'z' else if v == 3 then 'r'
                   else if v == 4 then 'y' else if v == 5 then '9' else if v == 6 then 'x' else '8')
    else if v < 16 then (if v == 8 then 'g' else if v == 9 then 'f' else if v == 10 then '2' else if v == 11 then 't'
                         else if v == 12 then 'v' else if v == 13 then 'd' else if v == 14 then 'w' else '0')
    else if v < 24 then (if v == 16 then 's' else if v == 17 then '3' else if v == 18 then 'j' else if v == 19 then 'n'
                         else if v == 20 then '5' else if v == 21 then '4' else if v == 22 then 'k' else 'h')
    else (if v == 24 then 'c' else if v == 25 then 'e' else if v == 26 then '6' else if v == 27 then 'm'
          else if v == 28 then 'u' else if v == 29 then 'a' else if v == 30 then '7' else 'l')
  }

  /** The symbol of a lower-case character or digit. */
  function Reverse(c: char): Option<bv64> {
    if c <= '9' then ReverseDigit(c) else if c < 'h' then ReverseA(c) else if c < 'r' then ReverseH(c) else ReverseR(c)
  }

  function ReverseDigit(c: char): Option<bv64> {
    if c == '0' then Some(15) else if c == '2' then Some(10) else if c == '3' then Some(17) else if c == '4' then Some(21)
    else if c == '5' then Some(20) else if c == '6' then Some(26) else if c == '7' then Some(30) else if c == '8' then Some(7)
    else if c == '9' then Some(5) else None
  }

  function ReverseA(c: char): Option<bv64> {
    if c == 'a' then Some(29) else if c == 'c' then Some(24) else if c == 'd' then Some(13) else if c == 'e' then Some(25)
    else if c == 'f' then Some(9) else if c == 'g' then Some(8) else None
  }

  function ReverseH(c: char): Option<bv64> {
    if c == 'h' then Some(23) else if c == 'j' then Some(18) else if c == 'k' then Some(22) else if c == 'l' then Some(31)
    else if c == 'm' then Some(27) else if c == 'n' then Some(19) else if c == 'p' then Some(1) else if c == 'q' then Some(0) else None
  }

  function ReverseR(c: char): Option<bv64> {
    if c == 'r' then Some(3) else if c == 's' then Some(16) else if c == 't' then Some(11) else if c == 'u' then Some(28)
    else if c == 'v' then Some(12) else if c == 'w' then Some(14) else if c == 'x' then Some(6) else if c == 'y' then Some(4)
    else if c == 'z' then Some(2) else None
  }

  predicate IsLower(c: char) { 'a' <= c <= 'z' }

  predicate IsUpper(c: char) { 'A' <= c <= 'Z' }

  predicate Printable(c: char) { '!' <= c <= '~' }

  function LowerCase(c: char): char { if IsUpper(c) then (c - 'A') + 'a' else c }

  /** The symbol of a character of either case. */
  function SymbolOf(c: char): Option<bv64> { Reverse(LowerCase(c)) }

  lemma {:induction false} CharSymbol(v: bv64)
    requires v < 32
    ensures Reverse(CharOf(v)) == Some(v) && Printable(CharOf(v)) && !IsUpper(CharOf(v)) && CharOf(v) != '1'
  {
  }

  ghost predicate Known(c: char, r: Option<bv64>) {
    r.Some? ==> r.value < 32 && CharOf(r.value) == c && c != '1' && !IsUpper(c)
  }

  lemma {:induction false} KnownDigit(c: char) ensures Known(c, ReverseDigit(c)) { }

  lemma {:induction false} KnownA(c: char) ensures Known(c, ReverseA(c)) { }

  lemma {:induction false} KnownH(c: char) ensures Known(c, ReverseH(c)) { }

  lemma {:induction false} KnownR(c: char) ensures Known(c, ReverseR(c)) { }

  lemma {:induction false} SymbolChar(c: char)
    ensures Known(c, Reverse(c))
  {
    hide Known, ReverseDigit, ReverseA, ReverseH, ReverseR;
    KnownDigit(c);
    KnownA(c);
    KnownH(c);
    KnownR(c);
  }

  // ---------- strings and symbols ----------

  ghost predicate IsBytes(s: string) { forall i :: 0 <= i < |s| ==> s[i] as int < 256 }

  ghost predicate NoUpper(s: string) { forall i :: 0 <= i < |s| ==> !IsUpper(s[i]) }

  ghost predicate AllPrintable(s: string) { forall i :: 0 <= i < |s| ==> Printable(s[i]) }

  ghost function Lowered(s: string): (r: string)
    ensures |r| == |s| && forall i :: 0 <= i < |s| ==> r[i] == LowerCase(s[i])
  {
    seq(|s|, i requires 0 <= i < |s| => LowerCase(s[i]))
  }

  ghost function Chars(v: seq<bv64>): (r: string)
    requires Symbols(v)
    ensures |r| == |v| && forall i :: 0 <= i < |v| ==> r[i] == CharOf(v[i])
  {
    seq(|v|, i requires 0 <= i < |v| => CharOf(v[i]))
  }

  ghost predicate AllSymbols(s: string) { forall i :: 0 <= i < |s| ==> SymbolOf(s[i]).Some? }

  ghost function SymbolsIn(s: string): (v: seq<bv64>)
    requires AllSymbols(s)
    ensures |v| == |s| && forall i :: 0 <= i < |s| ==> Some(v[i]) == SymbolOf(s[i])
  {
    seq(|s|, i requires 0 <= i < |s| => SymbolOf(s[i]).value)
  }

  lemma {:induction false} SymbolsInSymbols(s: string)
    requires AllSymbols(s)
    ensures Symbols(SymbolsIn(s)) && Chars(SymbolsIn(s)) == Lowered(s)
  {
    hide CharOf, Reverse, LowerCase;
    forall i | 0 <= i < |s| ensures SymbolsIn(s)[i] < 32 && CharOf(SymbolsIn(s)[i]) == LowerCase(s[i]) {
      SymbolChar(LowerCase(s[i]));
    }
  }

  lemma {:induction false} CharsSymbols(v: seq<bv64>)
    requires Symbols(v)
    ensures AllSymbols(Chars(v)) && SymbolsIn(Chars(v)) == v
    ensures AllPrintable(Chars(v)) && NoUpper(Chars(v)) && '1' !in Chars(v)
  {
    hide CharOf, Reverse, Printable, IsUpper;
    forall i | 0 <= i < |v|
      ensures SymbolOf(Chars(v)[i]) == Some(v[i]) && Printable(Chars(v)[i]) && !IsUpper(Chars(v)[i]) && Chars(v)[i] != '1'
    {
      CharSymbol(v[i]);
    }
  }

  // ---------- the human readable part ----------

  function HighBits(c: char): bv64
    requires c as int < 256
  {
    (c as int / 32) as bv64
  }

  function LowBits(c: char): bv64 { (c as int % 32) as bv64 }

  lemma {:induction false} BitsSymbols(c: char)
    requires c as int < 256
    ensures HighBits(c) < 32 && LowBits(c) < 32
  {
    NumberSymbol(c as int / 32);
    NumberSymbol(c as int % 32);
  }

  lemma {:induction false} NumberSymbol(n: nat)
    requires n < 32
    ensures n as bv64 < 32
  {
  }

  ghost function Highs(hrp: string): (r: seq<bv64>)
    requires IsBytes(hrp)
    ensures |r| == |hrp| && forall i :: 0 <= i < |hrp| ==> r[i] == HighBits(hrp[i])
  {
    seq(|hrp|, i requires 0 <= i < |hrp| => HighBits(hrp[i]))
  }

  ghost function Lows(hrp: string): (r: seq<bv64>)
    ensures |r| == |hrp| && forall i :: 0 <= i < |hrp| ==> r[i] == LowBits(hrp[i])
  {
    seq(|hrp|, i requires 0 <= i < |hrp| => LowBits(hrp[i]))
  }

  /** The prefix as it enters the checksum. */
  ghost function Expanded(hrp: string): seq<bv64>
    requires IsBytes(hrp)
  {
    Highs(hrp) + [0] + Lows(hrp)
  }

  lemma {:induction false} ExpandedSymbols(hrp: string)
    requires IsBytes(hrp)
    ensures Symbols(Expanded(hrp))
  {
    hide HighBits, LowBits;
    forall i | 0 <= i < |hrp| ensures Highs(hrp)[i] < 32 && Lows(hrp)[i] < 32 { BitsSymbols(hrp[i]); }
  }

  /** As bech32.cpp builds it. */
  method PreparePolynomialCoefficients(hrp: string, values: seq<bv64>) returns (ret: seq<bv64>)
    requires IsBytes(hrp)
    ensures ret == Expanded(hrp) + values
  {
    hide HighBits, LowBits;
    ret := [];
    for i := 0 to |hrp|
      invariant ret == Highs(hrp)[..i]
    {
      ret := ret + [HighBits(hrp[i])];
    }
    ret := ret + [0];
    for i := 0 to |hrp|
      invariant ret == Highs(hrp) + [0] + Lows(hrp)[..i]
    {
      ret := ret + [LowBits(hrp[i])];
    }
    assert Lows(hrp)[..|hrp|] == Lows(hrp);
    ret := ret + values;
  }

  /** As blech32.cpp builds it. */
  method ExpandHRP(hrp: string) returns (ret: array<bv64>)
    requires IsBytes(hrp)
    ensures ret[..] == Expanded(hrp)
  {
    hide HighBits, LowBits;
    var n := |hrp|;
    ret := new bv64[n * 2 + 1](_ => 0);
    for i := 0 to n
      invariant forall j :: 0 <= j < i ==> ret[j] == HighBits(hrp[j]) && ret[j + n + 1] == LowBits(hrp[j])
    {
      ret[i] := HighBits(hrp[i]);
      ret[i + n + 1] := LowBits(hrp[i]);
    }
    ret[n] := 0;
    assert ret[..n] == Highs(hrp);
    forall j | 0 <= j < n ensures ret[n + 1..][j] == Lows(hrp)[j] { assert ret[j + n + 1] == LowBits(hrp[j]); }
    assert ret[n + 1..] == Lows(hrp);
    assert ret[..] == ret[..n] + [ret[n]] + ret[n + 1..];
  }

  method Coefficients(code: Code, hrp: string, values: seq<bv64>) returns (enc: seq<bv64>)
    requires IsBytes(hrp)
    ensures enc == Expanded(hrp) + values
  {
    if code.Bech32? {
      enc := PreparePolynomialCoefficients(hrp, values);
    } else {
      var expanded := ExpandHRP(hrp);
      enc := expanded[..] + values;
    }
  }

  // ---------- checksums ----------

  /** The encoding under which the symbols verify. */
  ghost function Verified(code: Code, hrp: string, values: seq<bv64>): Option<Encoding>
    requires IsBytes(hrp)
  {
    var check := Run(code, 1, Expanded(hrp) + values);
    if check == Constant(code, Plain) then Some(Plain) else if check == Constant(code, Modified) then Some(Modified) else None
  }

  method VerifyChecksum(code: Code, hrp: string, values: seq<bv64>) returns (r: Option<Encoding>)
    requires IsBytes(hrp)
    ensures r == Verified(code, hrp, values)
  {
    hide Run, Expanded;
    var enc := Coefficients(code, hrp, values);
    var check := PolyMod(code, enc);
    if check == Constant(code, Plain) { return Some(Plain); }
    if check == Constant(code, Modified) { return Some(Modified); }
    r := None;
  }

  lemma {:induction false} ConstantsDiffer(code: Code)
    ensures Constant(code, Plain) != Constant(code, Modified)
  {
  }

  lemma {:induction false} VerifiedIs(code: Code, hrp: string, values: seq<bv64>, e: Encoding)
    requires IsBytes(hrp)
    ensures Verified(code, hrp, values) == Some(e) <==> Run(code, 1, Expanded(hrp) + values) == Constant(code, e)
  {
    hide Constant, Run, Expanded;
    ConstantsDiffer(code);
  }

  ghost function ChecksumOf(code: Code, e: Encoding, hrp: string, values: seq<bv64>): (r: seq<bv64>)
    requires IsBytes(hrp)
    ensures |r| == Size(code) && Symbols(r)
  {
    ChecksumSymbols(code, e, Expanded(hrp) + values);
    Checksum(code, e, Expanded(hrp) + values)
  }

  lemma {:induction false} ChecksumSymbols(code: Code, e: Encoding, u: seq<bv64>)
    ensures Symbols(Checksum(code, e, u))
  {
    hide Groups, Run, Add;
    GroupsSymbols(Add(Run(code, 1, u + Zeroes(Size(code))), Constant(code, e)), Size(code));
  }

  method CreateChecksum(code: Code, e: Encoding, hrp: string, values: seq<bv64>) returns (ret: seq<bv64>)
    requires IsBytes(hrp)
    ensures ret == ChecksumOf(code, e, hrp, values)
  {
    hide Run, Expanded, Groups, Add, Shifted, Last;
    var enc := Coefficients(code, hrp, values);
    var n := Size(code);
    enc := enc + seq(n, _ => 0);
    assert enc == Expanded(hrp) + values + Zeroes(n);
    var mod := PolyMod(code, enc);
    mod := Add(mod, Constant(code, e));
    ret := [];
    for i := 0 to n
      invariant ret == Groups(mod, n)[..i]
    {
      GroupAt(mod, n, i);
      ret := ret + [Last(Shifted(mod, n - 1 - i))];
    }
    assert Groups(mod, n)[..n] == Groups(mod, n);
  }

  /** A list of symbols verifies exactly with the checksum that is created for it. */
  lemma {:induction false} VerifiesExactly(code: Code, e: Encoding, hrp: string, values: seq<bv64>, check: seq<bv64>)
    requires IsBytes(hrp) && Symbols(values) && Symbols(check) && |check| == Size(code)
    ensures Verified(code, hrp, values + check) == Some(e) <==> check == ChecksumOf(code, e, hrp, values)
  {
    hide Verified, Checksum, Run, Expanded, Constant;
    ExpandedSymbols(hrp);
    var u := Expanded(hrp) + values;
    VerifiedIs(code, hrp, values + check, e);
    assert Expanded(hrp) + (values + check) == u + check;
    ChecksumExact(code, e, u, check);
  }

  /** Changing symbols within a window as long as the checksum never goes unnoticed. */
  lemma {:induction false} ChangeNoticed(code: Code, e: Encoding, hrp: string, u: seq<bv64>, v: seq<bv64>, p: nat, n: nat)
    requires IsBytes(hrp) && Symbols(u) && Symbols(v) && DifferWithin(u, v, p, n) && n <= Size(code)
    ensures !(Verified(code, hrp, u) == Some(e) && Verified(code, hrp, v) == Some(e))
  {
    hide Verified, Run, Expanded, Constant;
    ExpandedSymbols(hrp);
    VerifiedIs(code, hrp, u, e);
    VerifiedIs(code, hrp, v, e);
    var x := Expanded(hrp);
    assert (x + u)[|x|..] == u && (x + v)[|x|..] == v;
    assert (x + u)[..|x| + p] == x + u[..p] && (x + v)[..|x| + p] == x + v[..p];
    assert (x + u)[|x| + p + n..] == u[p + n..] && (x + v)[|x| + p + n..] == v[p + n..];
    ChangeDetected(code, x + u, x + v, |x| + p, n);
  }

  // ---------- encoding ----------

  ghost function Encoded(code: Code, e: Encoding, hrp: string, values: seq<bv64>): string
    requires IsBytes(hrp) && Symbols(values)
  {
    hrp + "1" + Chars(values + ChecksumOf(code, e, hrp, values))
  }

  /** The caller promises a prefix without upper-case letters. */
  method Encode(code: Code, e: Encoding, hrp: string, values: seq<bv64>) returns (ret: string)
    requires IsBytes(hrp) && NoUpper(hrp) && Symbols(values)
    ensures ret == Encoded(code, e, hrp, values)
  {
    hide CharOf, ChecksumOf;
    var checksum := CreateChecksum(code, e, hrp, values);
    var combined := values + checksum;
    ret := hrp + "1";
    for i := 0 to |combined|
      invariant ret == hrp + "1" + Chars(combined)[..i]
    {
      ret := ret + [CharOf(combined[i])];
    }
    assert Chars(combined)[..|combined|] == Chars(combined);
  }

  // ---------- decoding ----------

  datatype DecodeResult = DecodeResult(encoding: Encoding, hrp: string, data: seq<bv64>)

  /** Printable characters of one case. */
  ghost predicate Acceptable(s: string) {
    AllPrintable(s) && !((exists c :: c in s && IsLower(c)) && (exists c :: c in s && IsUpper(c)))
  }

  /** The first letter, which decides the case. */
  ghost function First(s: string): (r: Option<char>)
    ensures r.Some? ==> r.value in s && (IsLower(r.value) || IsUpper(r.value))
    ensures r.None? ==> forall c :: c in s ==> !IsLower(c) && !IsUpper(c)
  {
    if s == [] then None
    else if First(s[..|s| - 1]).Some? then First(s[..|s| - 1])
    else if IsLower(s[|s| - 1]) || IsUpper(s[|s| - 1]) then Some(s[|s| - 1]) else None
  }

  /** A character that is not printable, or not of the case of the first letter. */
  ghost predicate BadAt(s: string, i: nat)
    requires i < |s|
  {
    var first := First(s[..i]);
    !Printable(s[i]) || (first.Some? && (if IsLower(first.value) then IsUpper(s[i]) else IsLower(s[i])))
  }

  lemma {:induction false} FirstStays(s: string, i: nat)
    requires i <= |s|
    ensures First(s[..i]).Some? ==> First(s) == First(s[..i])
  {
    hide IsLower, IsUpper;
    if i < |s| {
      FirstStays(s[..|s| - 1], i);
      assert s[..|s| - 1][..i] == s[..i];
    } else {
      assert s[..i] == s;
    }
  }

  lemma {:induction false} BadCharacter(s: string, i: nat)
    requires i < |s| && BadAt(s, i)
    ensures !Acceptable(s)
  {
    hide First;
    assert s[i] in s;
    var first := First(s[..i]);
    assert first.Some? ==> first.value in s[..i] && first.value in s;
  }

  lemma {:induction false} NoBadCharacter(s: string)
    requires forall i :: 0 <= i < |s| ==> !BadAt(s, i)
    ensures Acceptable(s)
  {
    hide First;
    forall i | 0 <= i < |s| ensures Printable(s[i]) { assert !BadAt(s, i); }
    var first := First(s);
    forall i | 0 <= i < |s| ensures first.Some? ==> (if IsLower(first.value) then !IsUpper(s[i]) else !IsLower(s[i])) {
      assert !BadAt(s, i);
      FirstStays(s, i);
      if First(s[..i]).None? && (IsLower(s[i]) || IsUpper(s[i])) {
        FirstHere(s, i);
        FirstStays(s, i + 1);
      }
    }
  }

  lemma {:induction false} FirstHere(s: string, i: nat)
    requires i < |s| && First(s[..i]).None?
    ensures First(s[..i + 1]) == if IsLower(s[i]) || IsUpper(s[i]) then Some(s[i]) else None
  {
    hide IsLower, IsUpper;
    assert s[..i + 1][..i] == s[..i];
  }

  lemma {:induction false} FirstThere(s: string, i: nat)
    requires i < |s| && First(s[..i]).Some?
    ensures First(s[..i + 1]) == First(s[..i])
  {
    hide IsLower, IsUpper;
    assert s[..i + 1][..i] == s[..i];
  }

  /** As bech32.cpp checks it, with the places of all invalid characters. */
  method CheckCharacters(str: string) returns (ok: bool, errors: seq<nat>)
    ensures forall i: nat :: i in errors <==> i < |str| && BadAt(str, i)
    ensures ok == Acceptable(str)
  {
    hide First, IsLower, IsUpper, Printable, Acceptable, BadAt;
    var lower, upper := false, false;
    errors := [];
    FirstNothing(str);
    for i := 0 to |str|
      invariant forall k: nat :: k in errors <==> k < i && BadAt(str, k)
      invariant CaseFlags(First(str[..i]), lower, upper)
    {
      var c := str[i];
      CaseStep(str, i, lower, upper);
      if IsLower(c) {
        if upper { errors := errors + [i]; } else { lower := true; }
      } else if IsUpper(c) {
        if lower { errors := errors + [i]; } else { upper := true; }
      } else if !Printable(c) {
        errors := errors + [i];
      }
    }
    ok := errors == [];
    if ok {
      forall i | 0 <= i < |str| ensures !BadAt(str, i) { assert i !in errors; }
      NoBadCharacter(str);
    } else {
      assert errors[0] in errors;
      BadCharacter(str, errors[0]);
    }
  }

  ghost predicate CaseFlags(first: Option<char>, lower: bool, upper: bool) {
    (lower <==> first.Some? && IsLower(first.value)) && (upper <==> first.Some? && IsUpper(first.value))
  }

  lemma {:induction false} FirstNothing(s: string)
    ensures First(s[..0]) == None
  {
  }

  /** One character of the check. */
  lemma {:induction false} CaseStep(s: string, i: nat, lower: bool, upper: bool)
    requires i < |s| && CaseFlags(First(s[..i]), lower, upper)
    ensures !(IsLower(s[i]) && IsUpper(s[i]))
    ensures BadAt(s, i) <==> if IsLower(s[i]) then upper else if IsUpper(s[i]) then lower else !Printable(s[i])
    ensures CaseFlags(First(s[..i + 1]), lower || (IsLower(s[i]) && !upper), upper || (IsUpper(s[i]) && !lower))
  {
    hide First;
    if First(s[..i]).None? { FirstHere(s, i); } else { FirstThere(s, i); }
  }

  /** As blech32.cpp checks it. */
  method CheckCase(str: string) returns (ok: bool)
    ensures ok == Acceptable(str)
  {
    var lower, upper := false, false;
    for i := 0 to |str|
      invariant AllPrintable(str[..i])
      invariant lower <==> exists c :: c in str[..i] && IsLower(c)
      invariant upper <==> exists c :: c in str[..i] && IsUpper(c)
    {
      var c := str[i];
      assert str[..i + 1] == str[..i] + [c];
      if IsLower(c) { lower := true; } else if IsUpper(c) { upper := true; } else if !Printable(c) { return false; }
    }
    assert str[..|str|] == str;
    ok := !(lower && upper);
  }

  /** The last separator, or -1. */
  ghost function LastOne(s: string): (p: int)
    ensures -1 <= p < |s| && (p >= 0 ==> s[p] == '1') && forall i :: p < i < |s| ==> s[i] != '1'
  {
    if s == [] then -1 else if s[|s| - 1] == '1' then |s| - 1 else LastOne(s[..|s| - 1])
  }

  method FindSeparator(str: string) returns (pos: int)
    ensures pos == LastOne(str)
  {
    pos := |str| - 1;
    while pos >= 0 && str[pos] != '1'
      invariant -1 <= pos < |str| && forall i :: pos < i < |str| ==> str[i] != '1'
    {
      pos := pos - 1;
    }
  }

  ghost function Decoded(code: Code, s: string, limit: nat): Option<DecodeResult> {
    var pos := LastOne(s);
    if !Acceptable(s) || |s| > limit || pos <= 0 || pos + Size(code) >= |s| || !AllSymbols(s[pos + 1..]) then None
    else AcceptedBytes(s, pos); Judged(code, Lowered(s[..pos]), SymbolsIn(s[pos + 1..]))
  }

  ghost function Judged(code: Code, hrp: string, values: seq<bv64>): Option<DecodeResult>
    requires |values| >= Size(code) && IsBytes(hrp)
  {
    match Verified(code, hrp, values)
    case None => None
    case Some(e) => Some(DecodeResult(e, hrp, values[..|values| - Size(code)]))
  }

  method Decode(code: Code, str: string, limit: nat) returns (r: Option<DecodeResult>)
    ensures r == Decoded(code, str, limit)
  {
    hide SymbolOf, LowerCase, Acceptable, LastOne, Verified;
    var ok;
    if code.Bech32? {
      var errors;
      ok, errors := CheckCharacters(str);
    } else {
      ok := CheckCase(str);
    }
    if !ok { return None; }
    var pos := FindSeparator(str);
    if |str| > limit || pos <= 0 || pos + Size(code) >= |str| { return None; }
    var values := [];
    for i := 0 to |str| - 1 - pos
      invariant |values| == i && forall j :: 0 <= j < i ==> Some(values[j]) == SymbolOf(str[pos + 1..][j])
    {
      assert str[i + pos + 1] == str[pos + 1..][i];
      var rev := SymbolOf(str[i + pos + 1]);
      if rev.None? { return None; }
      values := values + [rev.value];
    }
    FoundSymbols(str[pos + 1..], values);
    var hrp := "";
    for i := 0 to pos
      invariant hrp == Lowered(str[..pos])[..i]
    {
      hrp := hrp + [LowerCase(str[i])];
    }
    assert hrp == Lowered(str[..pos]);
    AcceptedBytes(str, pos);
    var result := VerifyChecksum(code, hrp, values);
    if result.None? { return None; }
    r := Some(DecodeResult(result.value, hrp, values[..|values| - Size(code)]));
  }

  lemma {:induction false} FoundSymbols(s: string, v: seq<bv64>)
    requires |v| == |s| && forall j :: 0 <= j < |s| ==> Some(v[j]) == SymbolOf(s[j])
    ensures AllSymbols(s) && SymbolsIn(s) == v
  {
    hide SymbolOf;
    forall j | 0 <= j < |s| ensures SymbolOf(s[j]).Some? { assert Some(v[j]) == SymbolOf(s[j]); }
  }

  lemma {:induction false} AcceptedBytes(s: string, pos: nat)
    requires Acceptable(s) && pos <= |s|
    ensures IsBytes(Lowered(s[..pos])) && NoUpper(Lowered(s[..pos]))
  {
    forall i | 0 <= i < pos ensures LowerCase(s[i]) as int < 256 && !IsUpper(LowerCase(s[i])) { assert Printable(s[i]); }
  }

  // ---------- the round trips ----------

  lemma {:induction false} NothingToLower(s: string)
    requires NoUpper(s)
    ensures Lowered(s) == s
  {
  }

  lemma {:induction false} LastOneIs(s: string, p: nat)
    requires p < |s| && s[p] == '1' && forall i :: p < i < |s| ==> s[i] != '1'
    ensures LastOne(s) == p
  {
  }

  /** Where the parts of an encoded string are, and when its characters are acceptable. */
  lemma {:induction false} EncodedParts(hrp: string, v: seq<bv64>)
    requires NoUpper(hrp) && Symbols(v)
    ensures var s := hrp + "1" + Chars(v);
            LastOne(s) == |hrp| && s[..|hrp|] == hrp && s[|hrp| + 1..] == Chars(v) && (Acceptable(s) <==> AllPrintable(hrp))
  {
    hide LastOne;
    var s := hrp + "1" + Chars(v);
    CharsSymbols(v);
    forall i | |hrp| < i < |s| ensures s[i] != '1' { assert s[i] == Chars(v)[i - |hrp| - 1]; }
    LastOneIs(s, |hrp|);
    assert s[..|hrp|] == hrp && s[|hrp| + 1..] == Chars(v);
    EncodedAcceptable(hrp, Chars(v));
  }

  lemma {:induction false} EncodedAcceptable(hrp: string, t: string)
    requires NoUpper(hrp) && NoUpper(t) && AllPrintable(t)
    ensures Acceptable(hrp + "1" + t) <==> AllPrintable(hrp)
  {
    var s := hrp + "1" + t;
    assert forall i :: 0 <= i < |hrp| ==> s[i] == hrp[i];
    assert forall i :: |hrp| < i < |s| ==> s[i] == t[i - |hrp| - 1];
    assert forall c :: c in s ==> !IsUpper(c);
  }

  /** Decoding gives back what was encoded, exactly if the prefix is printable and not empty and the
      string is not too long. */
  lemma {:induction false} DecodeEncode(code: Code, e: Encoding, hrp: string, values: seq<bv64>, limit: nat)
    requires IsBytes(hrp) && NoUpper(hrp) && Symbols(values)
    ensures Decoded(code, Encoded(code, e, hrp, values), limit)
         == if hrp != [] && AllPrintable(hrp) && |hrp| + 1 + |values| + Size(code) <= limit
            then Some(DecodeResult(e, hrp, values)) else None
  {
    hide Verified, ChecksumOf, Acceptable, AllPrintable, LastOne, SymbolOf, LowerCase, CharOf, NoUpper, IsBytes, Symbols;
    var check := ChecksumOf(code, e, hrp, values);
    var v := values + check;
    BothSymbols(values, check);
    EncodedParts(hrp, v);
    NothingToLower(hrp);
    CharsSymbols(v);
    VerifiesExactly(code, e, hrp, values, check);
    assert v[..|v| - Size(code)] == values;
  }

  lemma {:induction false} BothSymbols(u: seq<bv64>, v: seq<bv64>)
    requires Symbols(u) && Symbols(v)
    ensures Symbols(u + v)
  {
  }

  /** A string that decodes is, but for its case, the encoding of what it decodes to. */
  lemma {:induction false} EncodeDecode(code: Code, s: string, limit: nat)
    requires Decoded(code, s, limit).Some?
    ensures var d := Decoded(code, s, limit).value;
            IsBytes(d.hrp) && NoUpper(d.hrp) && Symbols(d.data) && Encoded(code, d.encoding, d.hrp, d.data) == Lowered(s)
  {
    hide Verified, ChecksumOf, Acceptable, SymbolOf, LowerCase, CharOf, LastOne, NoUpper, IsBytes, Symbols;
    var pos := LastOne(s);
    AcceptedBytes(s, pos);
    var tail := s[pos + 1..];
    SymbolsInSymbols(tail);
    var values := SymbolsIn(tail);
    var n := |values| - Size(code);
    var d := Decoded(code, s, limit).value;
    SplitSymbols(values, n);
    assert values[..n] + values[n..] == values;
    VerifiesExactly(code, d.encoding, d.hrp, values[..n], values[n..]);
    LoweredParts(s, pos);
  }

  lemma {:induction false} SplitSymbols(v: seq<bv64>, n: nat)
    requires Symbols(v) && n <= |v|
    ensures Symbols(v[..n]) && Symbols(v[n..])
  {
  }

  lemma {:induction false} LoweredParts(s: string, pos: nat)
    requires pos < |s| && s[pos] == '1'
    ensures Lowered(s) == Lowered(s[..pos]) + "1" + Lowered(s[pos + 1..])
  {
    assert LowerCase('1') == '1';
  }
}
