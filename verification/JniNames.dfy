/**
 JNI name mangling as the contract validator does it, after "Resolving Native Method Names" in
 chapter 2 of the JNI Specification, and what a match of symbol sets proves about declarations.
 */
module JniNames {
  import opened Options
  import opened Sequences

  /** Which characters Python's `str.isalnum` accepts; only the ASCII digits matter here. */
  ghost predicate Alphanumeric(alnum: char -> bool) {
    forall c :: '0' <= c <= '9' ==> alnum(c)
  }

  function HexDigit(n: int): (c: char)
    requires 0 <= n < 16
    ensures c as int < 0x1_0000
  {
    if n < 10 then ('0' as int + n) as char else ('a' as int + n - 10) as char
  }

  /** Hexadecimal, padded with zeros to a width: `f"{n:04x}"` for width 4. */
  function PaddedHex(n: nat, width: nat): (s: string)
    ensures width <= |s| && forall i :: 0 <= i < |s| ==> s[i] as int < 0x1_0000
    decreases n + width
  {
    if n == 0 && width == 0 then []
    else PaddedHex(n / 16, if width == 0 then 0 else width - 1) + [HexDigit(n % 16)]
  }

  /** `f"_0{ord(character):04x}"`: four hex digits, or more where the code needs them. */
  function Escape(c: char): (s: string)
    ensures forall i :: 0 <= i < |s| ==> s[i] as int < 0x1_0000
  {
    "_0" + PaddedHex(c as int, 4)
  }

  function EncodeChar(alnum: char -> bool, c: char): string {
    if c == '/' then "_"
    else if c == '_' then "_1"
    else if c == ';' then "_2"
    else if c == '[' then "_3"
    else if alnum(c) then [c]
    else Escape(c)
  }

  function Encode(alnum: char -> bool, s: string): string {
    if s == [] then [] else EncodeChar(alnum, s[0]) + Encode(alnum, s[1..])
  }

  function Join(pieces: seq<string>): string {
    if pieces == [] then [] else Join(pieces[..|pieces| - 1]) + pieces[|pieces| - 1]
  }

  method JniEncode(alnum: char -> bool, value: string) returns (r: string)
    ensures r == Encode(alnum, value)
  {
    var result: seq<string> := [];
    for i := 0 to |value|
      invariant Join(result) + Encode(alnum, value[i..]) == Encode(alnum, value)
    {
      var character := value[i];
      var piece;
      if character == '/' {
        piece := "_";
      } else if character == '_' {
        piece := "_1";
      } else if character == ';' {
        piece := "_2";
      } else if character == '[' {
        piece := "_3";
      } else if alnum(character) {
        piece := [character];
      } else {
        piece := Escape(character);
      }
      EncodeStep(alnum, value, i, result);
      result := result + [piece];
    }
    r := Join(result);
  }

  lemma EncodeStep(alnum: char -> bool, s: string, i: nat, pieces: seq<string>)
    requires i < |s|
    ensures Join(pieces + [EncodeChar(alnum, s[i])]) + Encode(alnum, s[i + 1..])
            == Join(pieces) + Encode(alnum, s[i..])
  {
    var piece := EncodeChar(alnum, s[i]);
    assert (pieces + [piece])[..|pieces|] == pieces;
    EncodeFrom(alnum, s, i);
  }

  lemma EncodeFrom(alnum: char -> bool, s: string, i: nat)
    requires i < |s|
    ensures Encode(alnum, s[i..]) == EncodeChar(alnum, s[i]) + Encode(alnum, s[i + 1..])
  {
    assert s[i..][1..] == s[i + 1..];
  }

  // ---------------------------------------------------------------- decoding

  function HexValue(c: char): Option<nat> {
    if '0' <= c <= '9' then Some(c as int - '0' as int)
    else if 'a' <= c <= 'f' then Some(c as int - 'a' as int + 10)
    else None
  }

  /** A character and the rest. */
  datatype Read = Bad | Read(c: char, rest: string)

  predicate IsScalar(n: int) {
    0 <= n < 0xD800 || 0xE000 <= n < 0x11_0000
  }

  function DecodeHex(t: string): (r: Read)
    ensures r.Read? ==> |r.rest| < |t|
  {
    if |t| < 4 then Bad
    else
      var a, b, c, d := HexValue(t[0]), HexValue(t[1]), HexValue(t[2]), HexValue(t[3]);
      if a.None? || b.None? || c.None? || d.None? then Bad
      else
        var n := a.value * 4096 + b.value * 256 + c.value * 16 + d.value;
        if IsScalar(n) then Read(n as char, t[4..]) else Bad
  }

  /** The first character meant by a mangled name: an underscore followed by 0, 1, 2 or 3 is an escape. */
  function DecodeChar(t: string): (r: Read)
    requires t != []
    ensures r.Read? ==> |r.rest| < |t|
  {
    if t[0] != '_' then Read(t[0], t[1..])
    else if |t| == 1 then Read('/', [])
    else if t[1] == '1' then Read('_', t[2..])
    else if t[1] == '2' then Read(';', t[2..])
    else if t[1] == '3' then Read('[', t[2..])
    else if t[1] == '0' then DecodeHex(t[2..])
    else Read('/', t[1..])
  }

  function Decode(t: string): Option<string>
    decreases |t|
  {
    if t == [] then Some([])
    else
      var r := DecodeChar(t);
      if r.Bad? then None
      else
        var rest := Decode(r.rest);
        if rest.None? then None else Some([r.c] + rest.value)
  }

  // ---------------------------------------------------------------- when the encoding can be undone

  /** A slash here would be read together with what follows it. */
  predicate Swallows(s: string)
    requires s != []
  {
    s[0] == '/' && 1 < |s| && '0' <= s[1] <= '3'
  }

  /** No slash is followed by a digit 0 to 3. */
  predicate Unambiguous(s: string) {
    s != [] ==> !Swallows(s) && Unambiguous(s[1..])
  }

  /** Every character is its own encoding or fits four hex digits. */
  predicate Escapable(alnum: char -> bool, s: string) {
    forall i :: 0 <= i < |s| ==> alnum(s[i]) || s[i] as int < 0x1_0000
  }

  lemma {:induction false} EscapeReadsBack(c: char, rest: string)
    requires c as int < 0x1_0000
    ensures DecodeChar(Escape(c) + rest) == Read(c, rest)
  {
    var n := c as int;
    var t := PaddedHex(n, 4) + rest;
    assert (Escape(c) + rest)[2..] == t;
    FourDigits(n);
    HexDigitReads(n / 4096);
    HexDigitReads(n / 256 % 16);
    HexDigitReads(n / 16 % 16);
    HexDigitReads(n % 16);
    assert t[4..] == rest;
    Nibbles(n);
  }

  lemma FourDigits(n: nat)
    requires n < 0x1_0000
    ensures PaddedHex(n, 4) == [HexDigit(n / 4096), HexDigit(n / 256 % 16), HexDigit(n / 16 % 16), HexDigit(n % 16)]
  {
    var a := n / 16;
    var b := a / 16;
    var c := b / 16;
    Nibbles(n);
    assert PaddedHex(c / 16, 0) == [];
    assert PaddedHex(c, 1) == [HexDigit(c)];
    assert PaddedHex(b, 2) == [HexDigit(c), HexDigit(b % 16)];
    assert PaddedHex(a, 3) == [HexDigit(c), HexDigit(b % 16), HexDigit(a % 16)];
  }

  lemma HexDigitReads(n: int)
    requires 0 <= n < 16
    ensures HexValue(HexDigit(n)) == Some(n)
  {
  }

  lemma Nibbles(n: nat)
    requires n < 0x1_0000
    ensures n / 256 == n / 16 / 16 && n / 4096 == n / 16 / 16 / 16 < 16
    ensures n / 4096 * 4096 + n / 256 % 16 * 256 + n / 16 % 16 * 16 + n % 16 == n
  {
    var a := n / 16;
    var b := a / 16;
    var c := b / 16;
    assert n == 16 * a + n % 16 && a == 16 * b + a % 16 && b == 16 * c + b % 16;
    assert n / 256 == b && n / 4096 == c;
  }

  /** An encoding that does not begin with an underscore begins with the character itself. */
  lemma FirstOfEncoded(alnum: char -> bool, s: string)
    requires s != []
    ensures var t := Encode(alnum, s);
            && t != []
            && (t[0] != '_' ==> t[0] == s[0] && alnum(s[0]) && t[1..] == Encode(alnum, s[1..]))
            && (alnum(s[0]) && s[0] !in "/_;[" ==> t[0] == s[0])
  {
    var rest := Encode(alnum, s[1..]);
    assert ([s[0]] + rest)[1..] == rest;
  }

  lemma SlashReadsBack(alnum: char -> bool, s: string)
    requires Alphanumeric(alnum) && s != [] && s[0] == '/' && !Swallows(s)
    ensures DecodeChar(Encode(alnum, s)) == Read('/', Encode(alnum, s[1..]))
  {
    var rest := Encode(alnum, s[1..]);
    var t := "_" + rest;
    assert t[1..] == rest;
    if |s| > 1 {
      FirstOfEncoded(alnum, s[1..]);
      assert t[1] == rest[0];
    }
  }

  lemma {:induction false} CharReadsBack(alnum: char -> bool, s: string)
    requires Alphanumeric(alnum) && s != [] && !Swallows(s)
    requires alnum(s[0]) || s[0] as int < 0x1_0000
    ensures DecodeChar(Encode(alnum, s)) == Read(s[0], Encode(alnum, s[1..]))
  {
    var rest := Encode(alnum, s[1..]);
    if s[0] == '/' {
      SlashReadsBack(alnum, s);
    } else if s[0] == '_' {
      assert ("_1" + rest)[2..] == rest;
    } else if s[0] == ';' {
      assert ("_2" + rest)[2..] == rest;
    } else if s[0] == '[' {
      assert ("_3" + rest)[2..] == rest;
    } else if alnum(s[0]) {
      FirstOfEncoded(alnum, s);
    } else {
      EscapeReadsBack(s[0], rest);
    }
  }

  lemma {:induction false} ReadsBack(alnum: char -> bool, s: string)
    requires Alphanumeric(alnum) && Unambiguous(s) && Escapable(alnum, s)
    ensures Decode(Encode(alnum, s)) == Some(s)
  {
    if s != [] {
      var t, rest := Encode(alnum, s), Encode(alnum, s[1..]);
      assert DecodeChar(t) == Read(s[0], rest) by { CharReadsBack(alnum, s); }
      ReadsBack(alnum, s[1..]);
      assert s == [s[0]] + s[1..];
    }
  }

  // ---------------------------------------------------------------- and when it cannot

  lemma {:induction false} PassesThrough(alnum: char -> bool, s: string, k: nat)
    requires k <= |Encode(alnum, s)|
    requires forall i :: 0 <= i < k ==> Encode(alnum, s)[i] != '_'
    ensures k <= |s| && Encode(alnum, s)[k..] == Encode(alnum, s[k..])
  {
    if k == 0 {
      assert s[0..] == s && Encode(alnum, s)[0..] == Encode(alnum, s);
    } else {
      FirstOfEncoded(alnum, s);
      var t, rest := Encode(alnum, s), Encode(alnum, s[1..]);
      assert t[1..] == rest;
      forall i | 0 <= i < k - 1
        ensures rest[i] != '_'
      {
        assert rest[i] == t[i + 1];
      }
      PassesThrough(alnum, s[1..], k - 1);
      assert s[1..][k - 1..] == s[k..];
      assert t[k..] == rest[k - 1..];
    }
  }

  /** A swallowed slash makes one character out of two or more. */
  lemma {:induction false} SwallowedReads(alnum: char -> bool, s: string)
    requires Alphanumeric(alnum) && s != [] && Swallows(s)
    requires DecodeChar(Encode(alnum, s)).Read?
    ensures exists k :: 2 <= k <= |s| && DecodeChar(Encode(alnum, s)).rest == Encode(alnum, s[k..])
  {
    var t, rest := Encode(alnum, s), Encode(alnum, s[2..]);
    SwallowedEncoding(alnum, s);
    EscapeReads(t);
    if s[1] == '0' {
      HexIsFourPlain(rest);
      PassesThrough(alnum, s[2..], 4);
      assert s[2..][4..] == s[6..];
    }
  }

  lemma SwallowedEncoding(alnum: char -> bool, s: string)
    requires Alphanumeric(alnum) && s != [] && Swallows(s)
    ensures Encode(alnum, s) == ['_', s[1]] + Encode(alnum, s[2..])
  {
    assert s == ['/'] + ([s[1]] + s[2..]);
    EncodeCons(alnum, '/', [s[1]] + s[2..]);
    EncodeCons(alnum, s[1], s[2..]);
    Associative("_", [s[1]], Encode(alnum, s[2..]));
  }

  lemma EscapeReads(t: string)
    requires 2 <= |t| && t[0] == '_' && '0' <= t[1] <= '3' && DecodeChar(t).Read?
    ensures DecodeChar(t).rest == if t[1] == '0' then DecodeHex(t[2..]).rest else t[2..]
    ensures t[1] == '0' ==> DecodeHex(t[2..]).Read?
  {
  }

  lemma HexIsFourPlain(t: string)
    requires DecodeHex(t).Read?
    ensures 4 <= |t| && DecodeHex(t).rest == t[4..]
    ensures forall i :: 0 <= i < 4 ==> t[i] != '_'
  {
  }

  lemma {:induction false} DecodingShrinks(alnum: char -> bool, s: string)
    requires Alphanumeric(alnum) && Escapable(alnum, s)
    ensures var v := Decode(Encode(alnum, s));
            v.Some? ==> |v.value| <= |s| && (!Unambiguous(s) ==> |v.value| < |s|)
    decreases |s|
  {
    if s != [] && Decode(Encode(alnum, s)).Some? {
      FirstOfEncoded(alnum, s);
      if Swallows(s) {
        SwallowedReads(alnum, s);
        var k :| 2 <= k <= |s| && DecodeChar(Encode(alnum, s)).rest == Encode(alnum, s[k..]);
        DecodingShrinks(alnum, s[k..]);
      } else {
        CharReadsBack(alnum, s);
        DecodingShrinks(alnum, s[1..]);
      }
    }
  }

  /** Nothing decodes to a character that is neither passed through nor within four hex digits. */
  lemma {:induction false} EncodedIsEscapable(alnum: char -> bool, s: string)
    requires Alphanumeric(alnum)
    ensures Escapable(alnum, Encode(alnum, s))
  {
    if s != [] {
      EncodedIsEscapable(alnum, s[1..]);
      CharIsEscapable(alnum, s[0]);
    }
  }

  lemma CharIsEscapable(alnum: char -> bool, c: char)
    ensures Escapable(alnum, EncodeChar(alnum, c))
  {
  }

  lemma DecodedCharIsEscapable(alnum: char -> bool, t: string)
    requires t != [] && Escapable(alnum, t) && DecodeChar(t).Read?
    ensures var r := DecodeChar(t);
            && (alnum(r.c) || r.c as int < 0x1_0000)
            && |r.rest| < |t| && r.rest == t[|t| - |r.rest|..]
  {
  }

  lemma {:induction false} DecodedIsEscapable(alnum: char -> bool, t: string)
    requires Escapable(alnum, t)
    ensures Decode(t).Some? ==> Escapable(alnum, Decode(t).value)
    decreases |t|
  {
    if t != [] && Decode(t).Some? {
      var r := DecodeChar(t);
      DecodedCharIsEscapable(alnum, t);
      DecodedIsEscapable(alnum, r.rest);
      assert Decode(t).value == [r.c] + Decode(r.rest).value;
    }
  }

  /** The encoding of a name can be undone exactly when it is unambiguous and escapable. */
  lemma {:induction false} DecodableIff(alnum: char -> bool, s: string)
    requires Alphanumeric(alnum)
    ensures Decode(Encode(alnum, s)) == Some(s) <==> Unambiguous(s) && Escapable(alnum, s)
  {
    EncodedIsEscapable(alnum, s);
    DecodedIsEscapable(alnum, Encode(alnum, s));
    if Escapable(alnum, s) {
      DecodingShrinks(alnum, s);
      if Unambiguous(s) {
        ReadsBack(alnum, s);
      }
    }
  }

  // ---------------------------------------------------------------- symbols

  /** A native method of a class, the class by its binary name with slashes. */
  datatype Native = Native(binaryName: string, method_: string)

  function Path(n: Native): string {
    n.binaryName + "/" + n.method_
  }

  function Symbol(alnum: char -> bool, n: Native): string {
    "Java_" + Encode(alnum, n.binaryName) + "_" + Encode(alnum, n.method_)
  }

  /** As in a Java source: a method name has no slash, and no name begins with a digit. */
  ghost predicate Declarable(alnum: char -> bool, n: Native) {
    '/' !in n.method_ && Unambiguous(Path(n)) && Escapable(alnum, Path(n))
  }

  lemma {:induction false} EncodeConcat(alnum: char -> bool, a: string, b: string)
    ensures Encode(alnum, a + b) == Encode(alnum, a) + Encode(alnum, b)
  {
    if a == [] {
      assert a + b == b;
    } else {
      var first, ab := EncodeChar(alnum, a[0]), a[1..] + b;
      assert Encode(alnum, a + b) == first + Encode(alnum, ab) by {
        assert a + b == [a[0]] + ab;
        EncodeCons(alnum, a[0], ab);
      }
      EncodeConcat(alnum, a[1..], b);
      Associative(first, Encode(alnum, a[1..]), Encode(alnum, b));
    }
  }

  /** The separator between class and method is what a slash would have become. */
  lemma {:induction false} SymbolIsEncodedPath(alnum: char -> bool, n: Native)
    ensures Symbol(alnum, n) == "Java_" + Encode(alnum, Path(n))
  {
    EncodeConcat(alnum, n.binaryName, "/" + n.method_);
    EncodeConcat(alnum, "/", n.method_);
    assert Encode(alnum, "/") == "_";
    assert Path(n) == n.binaryName + ("/" + n.method_);
  }

  lemma PathIsInjective(m: Native, n: Native)
    requires '/' !in m.method_ && '/' !in n.method_
    requires Path(m) == Path(n)
    ensures m == n
  {
    var p := Path(m);
    var i, j := |m.binaryName|, |n.binaryName|;
    assert p[i] == '/' && p[j] == '/';
    assert p[i + 1..] == m.method_ && p[j + 1..] == n.method_;
    assert '/' !in p[i + 1..] && '/' !in p[j + 1..];
    assert i == j;
    assert m.binaryName == p[..i] && n.binaryName == p[..j];
  }

  lemma SymbolsDiffer(alnum: char -> bool, m: Native, n: Native)
    requires Alphanumeric(alnum) && Declarable(alnum, m) && Declarable(alnum, n)
    ensures Symbol(alnum, m) == Symbol(alnum, n) <==> m == n
  {
    if Symbol(alnum, m) == Symbol(alnum, n) {
      SymbolIsEncodedPath(alnum, m);
      SymbolIsEncodedPath(alnum, n);
      assert Symbol(alnum, m)[5..] == Encode(alnum, Path(m));
      assert Symbol(alnum, n)[5..] == Encode(alnum, Path(n));
      ReadsBack(alnum, Path(m));
      ReadsBack(alnum, Path(n));
      PathIsInjective(m, n);
    }
  }

  function Symbols(alnum: char -> bool, natives: set<Native>): set<string> {
    set n | n in natives :: Symbol(alnum, n)
  }

  method NativeSymbols(alnum: char -> bool, binaryName: string, methods: seq<string>) returns (symbols: set<string>)
    ensures symbols == Symbols(alnum, Natives(binaryName, methods))
  {
    symbols := {};
    for i := 0 to |methods|
      invariant symbols == Symbols(alnum, Natives(binaryName, methods[..i]))
    {
      var class_ := JniEncode(alnum, binaryName);
      var method_ := JniEncode(alnum, methods[i]);
      NativesPush(binaryName, methods, i);
      SymbolsPush(alnum, Natives(binaryName, methods[..i]), Native(binaryName, methods[i]));
      symbols := symbols + {"Java_" + class_ + "_" + method_};
    }
    assert methods[..|methods|] == methods;
  }

  function Natives(binaryName: string, methods: seq<string>): set<Native> {
    set m | m in methods :: Native(binaryName, m)
  }

  lemma NativesPush(binaryName: string, methods: seq<string>, i: nat)
    requires i < |methods|
    ensures Natives(binaryName, methods[..i + 1]) == Natives(binaryName, methods[..i]) + {Native(binaryName, methods[i])}
  {
    assert methods[..i + 1] == methods[..i] + [methods[i]];
  }

  lemma SymbolsPush(alnum: char -> bool, natives: set<Native>, n: Native)
    ensures Symbols(alnum, natives + {n}) == Symbols(alnum, natives) + {Symbol(alnum, n)}
  {
  }

  ghost predicate IsSymbol(alnum: char -> bool, s: string) {
    exists n :: Declarable(alnum, n) && Symbol(alnum, n) == s
  }

  /**
   What the validator concludes from any set of exported strings holds of declarations.  None
   missing means every declared method is exported; none extra, that every string exported is the
   symbol of a method and no undeclared method is exported; and both, that the numbers agree.
   */
  lemma SymbolsSpeakForNatives(alnum: char -> bool, declared: set<Native>, exported: set<string>)
    requires Alphanumeric(alnum)
    requires forall n :: n in declared ==> Declarable(alnum, n)
    ensures Symbols(alnum, declared) - exported == {} <==> forall n :: n in declared ==> Symbol(alnum, n) in exported
    ensures exported - Symbols(alnum, declared) == {}
            <==> (forall s :: s in exported ==> IsSymbol(alnum, s))
                 && (forall n :: Declarable(alnum, n) && Symbol(alnum, n) in exported ==> n in declared)
    ensures Symbols(alnum, declared) == exported ==> |exported| == |declared|
  {
    SymbolsCount(alnum, declared);
    forall n | n in declared && Symbols(alnum, declared) - exported == {}
      ensures Symbol(alnum, n) in exported
    {
      assert Symbol(alnum, n) !in Symbols(alnum, declared) - exported;
    }
    if exported - Symbols(alnum, declared) == {} {
      forall s | s in exported
        ensures s in Symbols(alnum, declared)
      {
        assert s !in exported - Symbols(alnum, declared);
      }
    }
    forall n | Declarable(alnum, n)
      ensures Symbol(alnum, n) in Symbols(alnum, declared) <==> n in declared
    {
      SymbolsReflect(alnum, declared, n);
    }
  }

  /** A method's symbol is among the symbols of declared methods only if it is declared itself. */
  lemma SymbolsReflect(alnum: char -> bool, declared: set<Native>, n: Native)
    requires Alphanumeric(alnum) && Declarable(alnum, n)
    requires forall m :: m in declared ==> Declarable(alnum, m)
    ensures Symbol(alnum, n) in Symbols(alnum, declared) <==> n in declared
  {
    forall m | m in declared
      ensures Symbol(alnum, m) == Symbol(alnum, n) <==> m == n
    {
      SymbolsDiffer(alnum, m, n);
    }
  }

  lemma {:induction false} SymbolsCount(alnum: char -> bool, a: set<Native>)
    requires Alphanumeric(alnum)
    requires forall n :: n in a ==> Declarable(alnum, n)
    ensures |Symbols(alnum, a)| == |a|
    decreases a
  {
    if a != {} {
      var n :| n in a;
      SymbolsCount(alnum, a - {n});
      forall m | m in a - {n}
        ensures Symbol(alnum, m) != Symbol(alnum, n)
      {
        SymbolsDiffer(alnum, m, n);
      }
      assert Symbols(alnum, a) == Symbols(alnum, a - {n}) + {Symbol(alnum, n)};
    }
  }

  /** Outside that range names do collide: a slash is swallowed, */
  lemma SwallowedSlashCollides(alnum: char -> bool, rest: string)
    requires Alphanumeric(alnum)
    ensures Encode(alnum, "/1" + rest) == Encode(alnum, "_" + rest)
  {
    var slash, underscore := "/1" + rest, "_" + rest;
    SwallowedEncoding(alnum, slash);
    assert slash[2..] == rest && underscore[1..] == rest;
  }

  /**
   and the fifth hex digit of an escape is taken for the next character: a private-use character
   such as U+F0000, say, for U+F000 and a zero.
   */
  lemma WideCharacterCollides(alnum: char -> bool, n: nat, rest: string)
    requires Alphanumeric(alnum) && 0x1_0000 <= n && IsScalar(n) && IsScalar(n / 16)
    requires !alnum(n as char) && !alnum((n / 16) as char) && alnum(HexDigit(n % 16))
    ensures Encode(alnum, [n as char] + rest) == Encode(alnum, [(n / 16) as char, HexDigit(n % 16)] + rest)
  {
    var wide, narrow, digit := n as char, (n / 16) as char, HexDigit(n % 16);
    EncodeCons(alnum, wide, rest);
    EncodeCons(alnum, narrow, [digit] + rest);
    EncodeCons(alnum, digit, rest);
    WideEscape(n);
    assert [narrow, digit] + rest == [narrow] + ([digit] + rest);
    Associative(Escape(narrow), [digit], Encode(alnum, rest));
  }

  lemma EncodeCons(alnum: char -> bool, c: char, s: string)
    ensures Encode(alnum, [c] + s) == EncodeChar(alnum, c) + Encode(alnum, s)
  {
    assert ([c] + s)[1..] == s;
  }

  lemma WideEscape(n: nat)
    requires 0x1_0000 <= n && IsScalar(n) && IsScalar(n / 16)
    ensures Escape(n as char) == Escape((n / 16) as char) + [HexDigit(n % 16)]
  {
    var a := n / 16;
    var b := a / 16;
    var c := b / 16;
    assert Long(c / 16, 0);
    assert Long(c, 1) && Long(b, 2) && Long(a, 3);
    PaddingUnneeded(a, 3);
    Associative("_0", PaddedHex(n / 16, 4), [HexDigit(n % 16)]);
  }

  /** A number longer than the width needs no padding to one digit more. */
  lemma {:induction false} PaddingUnneeded(n: nat, width: nat)
    requires Long(n, width)
    ensures PaddedHex(n, width) == PaddedHex(n, width + 1)
  {
    if width != 0 {
      PaddingUnneeded(n / 16, width - 1);
    }
  }

  /** Whether a number has more hex digits than that. */
  predicate Long(n: nat, digits: nat) {
    if digits == 0 then 0 < n else Long(n / 16, digits - 1)
  }
}
