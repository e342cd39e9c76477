/** Hierarchical deterministic wallet paths: parsing and printing. */
module DerivationPath {
  import opened Options

  const HARDENED: nat := 0x8000_0000
  const MAX_UINT32: nat := 0xFFFF_FFFF

  type Uint32 = n: nat | n <= MAX_UINT32

  const DEFAULT_ROOT: seq<Uint32> := [HARDENED + 44, HARDENED + 60, HARDENED + 0, 0]

  datatype Error = EmptyPath | AmbiguousPath | InvalidComponent | OutOfRange

  datatype Result<+T> = Ok(value: T) | Err(error: Error)

  type Reader = string -> Result<Uint32>

  // ----- strings

  /** `strings.Split(s, "/")`: never empty. */
  function Split(s: string): (r: seq<string>)
    ensures |r| >= 1
  {
    if s == "" then [""]
    else if s[0] == '/' then [""] + Split(s[1..])
    else
      var rest := Split(s[1..]);
      [[s[0]] + rest[0]] + rest[1..]
  }

  predicate IsSpace(c: char)
  {
    || '\t' <= c <= '\r' || c == ' ' || c == '\U{85}' || c == '\U{a0}' || c == '\U{1680}'
    || '\U{2000}' <= c <= '\U{200a}' || '\U{2028}' <= c <= '\U{2029}'
    || c == '\U{202f}' || c == '\U{205f}' || c == '\U{3000}'
  }

  function TrimLeft(s: string): (r: string)
  {
    if s != "" && IsSpace(s[0]) then TrimLeft(s[1..]) else s
  }

  function TrimRight(s: string): (r: string)
  {
    if s != "" && IsSpace(s[|s| - 1]) then TrimRight(s[..|s| - 1]) else s
  }

  function TrimSpace(s: string): (r: string)
  {
    TrimRight(TrimLeft(s))
  }

  // ----- big.Int.SetString(s, 0)

  datatype Last = Start | Digit | Separator

  function DigitValue(c: char): (d: nat)
  {
    if '0' <= c <= '9' then (c - '0') as nat
    else if 'a' <= c <= 'z' then (c - 'a') as nat + 10
    else if 'A' <= c <= 'Z' then (c - 'A') as nat + 10
    else 63
  }

  /** Scan digits of a base, with single underscores allowed between digits. */
  function Scan(base: nat, s: string, value: nat, count: nat, last: Last): (r: Option<nat>)
  {
    if s == "" then (if count == 0 || last == Separator then None else Some(value))
    else if s[0] == '_' then (if last != Digit then None else Scan(base, s[1..], value, count, Separator))
    else if DigitValue(s[0]) >= base then None
    else Scan(base, s[1..], value * base + DigitValue(s[0]), count + 1, Digit)
  }

  /** An unsigned number whose base is given by its prefix; a leading zero means octal. */
  function Magnitude(s: string): (r: Option<nat>)
  {
    if s == "" then None
    else if s[0] != '0' then Scan(10, s, 0, 0, Start)
    else if |s| == 1 then Some(0)
    else if s[1] == 'b' || s[1] == 'B' then Scan(2, s[2..], 0, 0, Digit)
    else if s[1] == 'o' || s[1] == 'O' then Scan(8, s[2..], 0, 0, Digit)
    else if s[1] == 'x' || s[1] == 'X' then Scan(16, s[2..], 0, 0, Digit)
    else Scan(8, s[1..], 0, 0, Digit)
  }

  function SetString(s: string): (r: Option<int>)
  {
    var signed := s != "" && (s[0] == '-' || s[0] == '+');
    match Magnitude(if signed then s[1..] else s)
    case None => None
    case Some(v) => var value: int := v; Some(if signed && s[0] == '-' then -value else value)
  }

  // ----- what the numerals mean

  function Power(base: nat, k: nat): (p: nat)
  {
    if k == 0 then 1 else base * Power(base, k - 1)
  }

  /** The value of digits in positional notation. */
  function Positional(base: nat, digits: string): (v: nat)
  {
    if digits == "" then 0
    else DigitValue(digits[0]) * Power(base, |digits| - 1) + Positional(base, digits[1..])
  }

  /** The digits without their separators. */
  function Strip(s: string): (r: string)
    ensures |r| <= |s|
  {
    if s == "" then "" else if s[0] == '_' then Strip(s[1..]) else [s[0]] + Strip(s[1..])
  }

  /** Digits of the base, with underscores only before a digit, and in front only if `prefixed`. */
  predicate Numeral(base: nat, s: string, prefixed: bool)
  {
    && (forall i :: 0 <= i < |s| ==> s[i] == '_' || DigitValue(s[i]) < base)
    && (forall i :: 0 <= i < |s| && s[i] == '_' ==> i + 1 < |s| && s[i + 1] != '_')
    && (s != "" && s[0] == '_' ==> prefixed)
  }

  lemma NumeralTail(base: nat, s: string, prefixed: bool)
    requires s != ""
    ensures Numeral(base, s, prefixed) <==>
              if s[0] == '_' then prefixed && s[1..] != "" && Numeral(base, s[1..], false)
              else DigitValue(s[0]) < base && Numeral(base, s[1..], true)
  {
    var tail := s[1..];
    assert forall i :: 0 <= i < |tail| ==> tail[i] == s[i + 1];
    assert forall i :: 0 < i < |s| ==> s[i] == tail[i - 1];
  }

  lemma Shift(value: nat, base: nat, digit: nat, power: nat, rest: nat)
    ensures (value * base + digit) * power + rest == value * (base * power) + (digit * power + rest)
  {
  }

  /** Scanning accepts exactly the numerals and gives their positional value. */
  lemma {:induction false} ScanExact(base: nat, s: string, value: nat, count: nat, last: Last)
    ensures Scan(base, s, value, count, last).Some? <==>
              Numeral(base, s, last == Digit) && (s == "" ==> count > 0 && last != Separator)
    ensures Scan(base, s, value, count, last).Some? ==>
              Scan(base, s, value, count, last).value == value * Power(base, |Strip(s)|) + Positional(base, Strip(s))
    decreases |s|
  {
    if s != "" {
      NumeralTail(base, s, last == Digit);
      if s[0] == '_' {
        ScanExact(base, s[1..], value, count, Separator);
      } else {
        var digit, rest := DigitValue(s[0]), Strip(s[1..]);
        ScanExact(base, s[1..], value * base + digit, count + 1, Digit);
        assert Strip(s)[1..] == rest;
        Shift(value, base, digit, Power(base, |rest|), Positional(base, rest));
      }
    }
  }

  /** A number in a base, if it is one. */
  function ValueIn(base: nat, s: string, prefixed: bool): (v: Option<nat>)
  {
    if s != "" && Numeral(base, s, prefixed) then Some(Positional(base, Strip(s))) else None
  }

  /** Hexadecimal, octal and binary numbers by their prefix, a leading zero for octal, and decimal
      numbers otherwise. */
  lemma MagnitudeForms(s: string)
    ensures Magnitude("0x" + s) == Magnitude("0X" + s) == ValueIn(16, s, true)
    ensures Magnitude("0b" + s) == Magnitude("0B" + s) == ValueIn(2, s, true)
    ensures Magnitude("0o" + s) == Magnitude("0O" + s) == ValueIn(8, s, true)
    ensures s == "" || s[0] !in "bBoOxX" ==> Magnitude("0" + s) == if s == "" then Some(0) else ValueIn(8, s, true)
    ensures s == "" || s[0] != '0' ==> Magnitude(s) == ValueIn(10, s, false)
  {
    AfterPrefix("0x", s);
    AfterPrefix("0X", s);
    AfterPrefix("0b", s);
    AfterPrefix("0B", s);
    AfterPrefix("0o", s);
    AfterPrefix("0O", s);
    if s == "" || s[0] !in "bBoOxX" {
      AfterZero(s);
    }
    if s == "" || s[0] != '0' {
      ScanExact(10, s, 0, 0, Start);
    }
  }

  /** The base a prefix announces. */
  function BaseOf(prefix: string): (base: nat)
    requires prefix in ["0x", "0X", "0b", "0B", "0o", "0O"]
  {
    if prefix in ["0x", "0X"] then 16 else if prefix in ["0b", "0B"] then 2 else 8
  }

  lemma AfterPrefix(prefix: string, s: string)
    requires prefix in ["0x", "0X", "0b", "0B", "0o", "0O"]
    ensures Magnitude(prefix + s) == ValueIn(BaseOf(prefix), s, true)
  {
    ScanExact(BaseOf(prefix), s, 0, 0, Digit);
    assert (prefix + s)[2..] == s;
    assert Magnitude(prefix + s) == Scan(BaseOf(prefix), s, 0, 0, Digit);
  }

  lemma AfterZero(s: string)
    requires s == "" || s[0] !in "bBoOxX"
    ensures Magnitude("0" + s) == if s == "" then Some(0) else ValueIn(8, s, true)
  {
    ScanExact(8, s, 0, 0, Digit);
    assert ("0" + s)[1..] == s;
  }

  // ----- parsing

  function ParseComponent(component: string): (r: Result<Uint32>)
  {
    var c := TrimSpace(component);
    var hardened := c != "" && c[|c| - 1] == '\'';
    var value := if hardened then HARDENED else 0;
    ReadNumber(if hardened then TrimSpace(c[..|c| - 1]) else c, value)
  }

  /** A number on top of an offset, within 32 bits. */
  function ReadNumber(digits: string, offset: Uint32): (r: Result<Uint32>)
  {
    match SetString(digits)
    case None => Err(InvalidComponent)
    case Some(v) => if v < 0 || v > MAX_UINT32 - offset then Err(OutOfRange) else Ok(offset + v)
  }

  /** Read the first `n` components in order with `read`; the first failure is the answer. */
  function ParseFirst(read: Reader, components: seq<string>, n: nat): (r: Result<seq<Uint32>>)
    requires n <= |components|
    ensures r.Ok? ==> |r.value| == n
  {
    if n == 0 then Ok([])
    else
      match ParseFirst(read, components, n - 1)
      case Err(e) => Err(e)
      case Ok(path) =>
        match read(components[n - 1])
        case Err(e) => Err(e)
        case Ok(v) => Ok(path + [v])
  }

  function ParseAll(read: Reader, components: seq<string>): (r: Result<seq<Uint32>>)
    ensures r.Ok? ==> |r.value| == |components|
  {
    ParseFirst(read, components, |components|)
  }

  function Below(root: seq<Uint32>, r: Result<seq<Uint32>>): (extended: Result<seq<Uint32>>)
  {
    if r.Ok? then Ok(root + r.value) else r
  }

  /** An absolute path after "m", or a path relative to the default root. */
  function ParseParts(components: seq<string>): (r: Result<seq<Uint32>>)
    requires components != []
    ensures r.Ok? ==> r.value != []
  {
    var first := TrimSpace(components[0]);
    if first == "" then Err(AmbiguousPath)
    else if first != "m" then Below(DEFAULT_ROOT, ParseAll(ParseComponent, components))
    else if |components| == 1 then Err(EmptyPath)
    else ParseAll(ParseComponent, components[1..])
  }

  function Parse(path: string): (r: Result<seq<Uint32>>)
    ensures r.Ok? ==> r.value != []
  {
    ParseParts(Split(path))
  }

  // ----- printing

  function Decimal(n: nat): (s: string)
    ensures s != "" && forall i :: 0 <= i < |s| ==> '0' <= s[i] <= '9'
    ensures n > 0 ==> s[0] != '0'
  {
    if n < 10 then ['0' + n as char] else Decimal(n / 10) + ['0' + (n % 10) as char]
  }

  function PrintComponent(v: Uint32): (s: string)
    ensures '/' !in s
  {
    if v >= HARDENED then Decimal(v - HARDENED) + "'" else Decimal(v)
  }

  function Print(path: seq<Uint32>): (s: string)
  {
    if path == [] then "m" else Print(path[..|path| - 1]) + "/" + PrintComponent(path[|path| - 1])
  }

  lemma PrintMore(path: seq<Uint32>, v: Uint32, more: seq<Uint32>)
    requires more == path + [v]
    ensures Print(more) == Print(path) + "/" + PrintComponent(v)
  {
    assert more[..|path|] == path;
  }

  lemma RootComponents()
    ensures PrintComponent(HARDENED + 44) == "44'" && PrintComponent(HARDENED + 60) == "60'"
    ensures PrintComponent(HARDENED) == "0'" && PrintComponent(0) == "0"
  {
    assert Decimal(44) == "44" && Decimal(60) == "60";
  }

  lemma PrintFour(a: Uint32, b: Uint32, c: Uint32, d: Uint32)
    ensures Print([a, b, c, d]) ==
            "m" + "/" + PrintComponent(a) + "/" + PrintComponent(b) + "/" + PrintComponent(c) + "/" + PrintComponent(d)
  {
    PrintMore([], a, [a]);
    PrintMore([a], b, [a, b]);
    PrintMore([a, b], c, [a, b, c]);
    PrintMore([a, b, c], d, [a, b, c, d]);
  }

  /** The default root, as printed. */
  lemma DefaultRootPrinted()
    ensures Print(DEFAULT_ROOT) == "m/44'/60'/0'/0"
  {
    PrintFour(HARDENED + 44, HARDENED + 60, HARDENED, 0);
    RootComponents();
  }

  // ----- the round trip

  lemma {:induction false} ScanAppend(s: string, c: char, value: nat, count: nat, last: Last)
    requires '0' <= c <= '9' && Scan(10, s, value, count, last).Some?
    ensures Scan(10, s + [c], value, count, last) == Some(Scan(10, s, value, count, last).value * 10 + DigitValue(c))
    decreases |s|
  {
    if s == "" {
      assert s + [c] == [c];
      assert [c][1..] == "";
    } else {
      assert (s + [c])[1..] == s[1..] + [c];
      if s[0] == '_' {
        ScanAppend(s[1..], c, value, count, Separator);
      } else {
        ScanAppend(s[1..], c, value * 10 + DigitValue(s[0]), count + 1, Digit);
      }
    }
  }

  lemma {:induction false} ScanDecimal(n: nat)
    requires n > 0
    ensures Scan(10, Decimal(n), 0, 0, Start) == Some(n)
  {
    if n < 10 {
      assert Decimal(n)[1..] == "";
    } else {
      ScanDecimal(n / 10);
      ScanAppend(Decimal(n / 10), '0' + (n % 10) as char, 0, 0, Start);
    }
  }

  /** Reading a printed number gives it back; no printed number looks octal. */
  lemma SetStringDecimal(n: nat)
    ensures SetString(Decimal(n)) == Some(n)
  {
    if n > 0 {
      ScanDecimal(n);
    }
  }

  lemma TrimIdle(s: string)
    requires s != "" && !IsSpace(s[0]) && !IsSpace(s[|s| - 1])
    ensures TrimSpace(s) == s
  {
  }

  // ----- whitespace and range

  predicate Blank(s: string)
  {
    forall i :: 0 <= i < |s| ==> IsSpace(s[i])
  }

  lemma {:induction false} TrimLeftPads(pad: string, s: string)
    requires Blank(pad)
    ensures TrimLeft(pad + s) == TrimLeft(s)
    decreases |pad|
  {
    if pad == "" {
      assert pad + s == s;
    } else {
      assert (pad + s)[1..] == pad[1..] + s;
      TrimLeftPads(pad[1..], s);
    }
  }

  lemma {:induction false} TrimRightPads(s: string, pad: string)
    requires Blank(pad)
    ensures TrimRight(s + pad) == TrimRight(s)
    decreases |pad|
  {
    if pad == "" {
      assert s + pad == s;
    } else {
      assert (s + pad)[..|s + pad| - 1] == s + pad[..|pad| - 1];
      TrimRightPads(s, pad[..|pad| - 1]);
    }
  }

  lemma {:induction false} TrimLeftKeeps(s: string, pad: string)
    requires Blank(pad)
    ensures TrimRight(TrimLeft(s + pad)) == TrimRight(TrimLeft(s))
    decreases |s|
  {
    if s == "" {
      assert s + pad == pad + "";
      TrimLeftPads(pad, "");
    } else if IsSpace(s[0]) {
      assert (s + pad)[1..] == s[1..] + pad;
      TrimLeftKeeps(s[1..], pad);
    } else {
      TrimRightPads(s, pad);
    }
  }

  /** Whitespace around a string is ignored. */
  lemma TrimPads(left: string, s: string, right: string)
    requires Blank(left) && Blank(right)
    ensures TrimSpace(left + s + right) == TrimSpace(s)
  {
    assert left + s + right == left + (s + right);
    TrimLeftPads(left, s + right);
    TrimLeftKeeps(s, right);
  }

  /** Whitespace around a component is ignored. */
  lemma WhitespaceIgnored(left: string, s: string, right: string)
    requires Blank(left) && Blank(right)
    ensures ParseComponent(left + s + right) == ParseComponent(s)
  {
    TrimPads(left, s, right);
  }

  /** And so it is before an apostrophe, which hardens the number in front of it. */
  lemma ReadsHardened(s: string, pad: string)
    requires s != "" && !IsSpace(s[0]) && Blank(pad)
    ensures ParseComponent(s + pad + "'") == ReadNumber(TrimSpace(s), 0x8000_0000)
  {
    var padded := s + pad;
    TrimIdle(padded + "'");
    assert (padded + "'")[..|padded|] == padded == "" + s + pad;
    TrimPads("", s, pad);
  }

  /** A number is accepted exactly up to the 32-bit limit, less the hardening offset if hardened. */
  lemma ComponentRange(n: nat)
    ensures ParseComponent(Decimal(n)) == if n <= 0xFFFF_FFFF then Ok(n) else Err(OutOfRange)
    ensures ParseComponent(Decimal(n) + "'") == if n <= 0x7FFF_FFFF then Ok(0x8000_0000 + n) else Err(OutOfRange)
    ensures ParseComponent("-" + Decimal(n)) == if n == 0 then Ok(0) else Err(OutOfRange)
  {
    var digits := Decimal(n);
    TrimIdle(digits);
    TrimIdle(digits + "'");
    TrimIdle("-" + digits);
    SetStringDecimal(n);
    assert (digits + "'")[..|digits|] == digits && ("-" + digits)[1..] == digits;
  }

  lemma ComponentRoundTrip(v: Uint32)
    ensures ParseComponent(PrintComponent(v)) == Ok(v)
  {
    var s := PrintComponent(v);
    var digits := Decimal(if v >= HARDENED then v - HARDENED else v);
    TrimIdle(digits);
    TrimIdle(s);
    SetStringDecimal(if v >= HARDENED then v - HARDENED else v);
    if v >= HARDENED {
      assert s[..|s| - 1] == digits;
    }
  }

  lemma {:induction false} SplitPlain(s: string)
    requires '/' !in s
    ensures Split(s) == [s]
  {
    if s != "" {
      SplitPlain(s[1..]);
      assert s == [s[0]] + s[1..];
    }
  }

  lemma {:induction false} SplitAppend(s: string, t: string)
    ensures Split(s + "/" + t) == Split(s) + Split(t)
    decreases |s|
  {
    if s == "" {
      assert s + "/" + t == "/" + t;
      assert ("/" + t)[1..] == t;
    } else {
      assert (s + "/" + t)[1..] == s[1..] + "/" + t;
      SplitAppend(s[1..], t);
    }
  }

  lemma SplitSnoc(s: string, t: string)
    requires '/' !in t
    ensures Split(s + "/" + t) == Split(s) + [t]
  {
    SplitAppend(s, t);
    SplitPlain(t);
  }

  lemma {:induction false} PrefixSame(read: Reader, head: seq<string>, tail: seq<string>, n: nat)
    requires n <= |head|
    ensures ParseFirst(read, head + tail, n) == ParseFirst(read, head, n)
    decreases n
  {
    if n > 0 {
      PrefixSame(read, head, tail, n - 1);
    }
  }

  lemma {:induction false} ParseAppend(read: Reader, head: seq<string>, tail: seq<string>, n: nat)
    requires ParseAll(read, head).Ok? && n <= |tail|
    ensures ParseFirst(read, head + tail, |head| + n) ==
            Below(ParseAll(read, head).value, ParseFirst(read, tail, n))
    decreases n
  {
    if n == 0 {
      PrefixSame(read, head, tail, |head|);
      assert ParseAll(read, head).value + [] == ParseAll(read, head).value;
    } else {
      ParseAppend(read, head, tail, n - 1);
      if ParseFirst(read, tail, n).Ok? {
        var path, v := ParseFirst(read, tail, n - 1).value, read(tail[n - 1]).value;
        assert ParseAll(read, head).value + path + [v] == ParseAll(read, head).value + (path + [v]);
      }
    }
  }

  lemma ParseAllAppend(read: Reader, head: seq<string>, tail: seq<string>, path: seq<Uint32>)
    requires ParseAll(read, head) == Ok(path)
    ensures ParseAll(read, head + tail) == Below(path, ParseAll(read, tail))
  {
    ParseAppend(read, head, tail, |tail|);
  }

  function Components(path: seq<Uint32>): (r: seq<string>)
  {
    seq(|path|, i requires 0 <= i < |path| => PrintComponent(path[i]))
  }

  lemma {:induction false} ReadsBack(read: Reader, components: seq<string>, path: seq<Uint32>, n: nat)
    requires n <= |components| == |path| && forall i :: 0 <= i < |path| ==> read(components[i]) == Ok(path[i])
    ensures ParseFirst(read, components, n) == Ok(path[..n])
  {
    if n > 0 {
      ReadsBack(read, components, path, n - 1);
      assert path[..n] == path[..n - 1] + [path[n - 1]];
    }
  }

  lemma ParseComponents(path: seq<Uint32>)
    ensures ParseAll(ParseComponent, Components(path)) == Ok(path)
  {
    forall i | 0 <= i < |path| ensures ParseComponent(Components(path)[i]) == Ok(path[i]) {
      ComponentRoundTrip(path[i]);
    }
    ReadsBack(ParseComponent, Components(path), path, |path|);
    assert path[..|path|] == path;
  }

  lemma {:induction false} SplitPrint(path: seq<Uint32>)
    ensures Split(Print(path)) == ["m"] + Components(path)
  {
    if path == [] {
      SplitPlain("m");
    } else {
      var init, last := path[..|path| - 1], path[|path| - 1];
      assert Components(path) == Components(init) + [PrintComponent(last)];
      SplitPrint(init);
      SplitSnoc(Print(init), PrintComponent(last));
    }
  }

  lemma ParseAbsolute(below: seq<string>)
    ensures ParseParts(["m"] + below) == if below == [] then Err(EmptyPath) else ParseAll(ParseComponent, below)
  {
    TrimIdle("m");
    assert (["m"] + below)[1..] == below;
  }

  /** Printing and parsing again gives back every non-empty path of 32-bit components, hardened or
      not; the empty path alone prints to something that is refused. */
  lemma RoundTrip(path: seq<Uint32>)
    ensures Parse(Print(path)) == if path == [] then Err(EmptyPath) else Ok(path)
  {
    SplitPrint(path);
    ParseAbsolute(Components(path));
    ParseComponents(path);
  }

  /** Printing normalises: whatever was accepted, its printed form parses to the same path, and
      printing that again changes nothing. */
  lemma PrintNormalises(input: string)
    requires Parse(input).Ok?
    ensures Parse(Print(Parse(input).value)) == Parse(input)
  {
    RoundTrip(Parse(input).value);
  }

  lemma SplitBelow(path: seq<Uint32>, input: string)
    ensures Split(Print(path) + "/" + input) == ["m"] + (Components(path) + Split(input))
  {
    SplitPrint(path);
    SplitAppend(Print(path), input);
  }

  /** Components written after a printed path extend that path. */
  lemma ParseBelow(path: seq<Uint32>, input: string)
    ensures Parse(Print(path) + "/" + input) ==
            Below(path, ParseAll(ParseComponent, Split(input)))
  {
    var components, tail := Components(path), Split(input);
    SplitBelow(path, input);
    ParseAbsolute(components + tail);
    ParseComponents(path);
    ParseAllAppend(ParseComponent, components, tail, path);
  }

  /** A relative path means the same as that path written after the default root. */
  lemma RelativeToRoot(input: string)
    requires TrimSpace(Split(input)[0]) != "" && TrimSpace(Split(input)[0]) != "m"
    ensures Parse(input) == Parse(Print(DEFAULT_ROOT) + "/" + input)
  {
    ParseBelow(DEFAULT_ROOT, input);
  }

  // ----- the source's loops

  lemma {:induction false} FirstError(read: Reader, components: seq<string>, i: nat, n: nat)
    requires i <= n <= |components| && ParseFirst(read, components, i).Err?
    ensures ParseFirst(read, components, n) == ParseFirst(read, components, i)
    decreases n
  {
    if i < n {
      FirstError(read, components, i, n - 1);
    }
  }

  method AppendComponents(read: Reader, root: seq<Uint32>, components: seq<string>) returns (r: Result<seq<Uint32>>)
    ensures r == Below(root, ParseAll(read, components))
  {
    var result := root;
    for i := 0 to |components|
      invariant ParseFirst(read, components, i).Ok? && result == root + ParseFirst(read, components, i).value
    {
      var value := read(components[i]);
      if value.Err? {
        FirstError(read, components, i + 1, |components|);
        return Err(value.error);
      }
      result := result + [value.value];
    }
    return Ok(result);
  }

  method ParseDerivationPath(path: string) returns (r: Result<seq<Uint32>>)
    ensures r == Parse(path)
  {
    var components := Split(path);
    var first := TrimSpace(components[0]);
    if first == "" {
      r := Err(AmbiguousPath);
    } else if first != "m" {
      r := AppendComponents(ParseComponent, DEFAULT_ROOT, components);
    } else if |components| == 1 {
      r := Err(EmptyPath);
    } else {
      r := AppendComponents(ParseComponent, [], components[1..]);
      assert r.Ok? ==> [] + ParseAll(ParseComponent, components[1..]).value == ParseAll(ParseComponent, components[1..]).value;
    }
  }

  method PrintDerivationPath(path: seq<Uint32>) returns (result: string)
    ensures result == Print(path)
  {
    result := "m";
    for i := 0 to |path|
      invariant result == Print(path[..i])
    {
      assert path[..i + 1][..i] == path[..i];
      var component, hardened := path[i], false;
      if component >= HARDENED {
        component, hardened := component - HARDENED, true;
      }
      result := result + "/" + Decimal(component);
      if hardened {
        result := result + "'";
      }
    }
    assert path[..|path|] == path;
  }
}
